/** The stand-alone application's extractor: a line-based address parser, the `#` rule for
    order ids, and the three passes of its `extract_shipping_info` over pre-extracted page
    views (buyer-address sections, shipping-address divs, generic address blocks). */
module LocalApp {
  import opened Text
  import opened Split
  import opened Dicts

  // ---------------------------------------------------------------------------------------
  // parse_address_from_parts
  // ---------------------------------------------------------------------------------------

  /** Sets city, state and ZIP from the stripped last line. With a comma, the city is what
      precedes the first comma and state and ZIP are the first two words after it; without
      one, state and ZIP are the last two words and the city is the words before them. No
      other key is touched. */
  function SetCityStateZip(d: Dict, last: string): (r: Dict)
    ensures forall k :: k != CityToKey && k != StateToKey && k != ZipToKey ==>
      (k in r <==> k in d) && (k in d ==> r[k] == d[k])
  {
    var i := IndexOf(last, ',');
    if i < |last| then
      SetStateZip(d[CityToKey := Strip(last[..i])], Words(Strip(last[i + 1..])))
    else
      var words := Words(last);
      if |words| >= 2 then
        d[StateToKey := Strip(words[|words| - 2])][ZipToKey := Strip(words[|words| - 1])]
         [CityToKey := Strip(Join(" ", words[..|words| - 2]))]
      else d
  }

  /** Sets state and ZIP from the first two words after the comma, when there are two. */
  function SetStateZip(d: Dict, stateZip: seq<string>): Dict {
    if |stateZip| >= 2 then d[StateToKey := Strip(stateZip[0])][ZipToKey := Strip(stateZip[1])]
    else d
  }

  /** Sets the street lines from the middle lines, and the company from a digit-free third
      line when there are five lines or more. */
  function SetStreets(d: Dict, parts: seq<string>): (r: Dict)
    requires |parts| >= 3
    ensures Street1ToKey in r && Street2ToKey in r
    ensures forall k :: k != Street1ToKey && k != Street2ToKey && k != CompanyToKey ==>
      (k in r <==> k in d) && (k in d ==> r[k] == d[k])
  {
    if |parts| == 3 then d[Street1ToKey := Strip(parts[1])][Street2ToKey := ""]
    else
      var both := d[Street1ToKey := Strip(parts[1])][Street2ToKey := Strip(parts[2])];
      if |parts| > 4 && !HasDigit(parts[2]) then
        both[CompanyToKey := Strip(parts[2])][Street2ToKey := if |parts| > 5 then Strip(parts[3]) else ""]
      else both
  }

  /** `parse_address_from_parts(parts)`: the empty dictionary for fewer than three lines;
      otherwise a record that always has a name, both street lines and an empty phone. */
  function ParseAddressFromParts(parts: seq<string>): (d: Dict)
    ensures d == map[] <==> |parts| < 3
    ensures |parts| >= 3 ==> ToNameKey in d && Street1ToKey in d && Street2ToKey in d
    ensures |parts| >= 3 ==> PhoneToKey in d && d[PhoneToKey] == ""
  {
    if |parts| < 3 then map[]
    else
      var named := map[ToNameKey := Strip(parts[0])];
      SetStreets(SetCityStateZip(named, Strip(Last(parts))), parts)[PhoneToKey := ""]
  }

  /** ToName is the first line, stripped. */
  lemma ParseName(parts: seq<string>)
    requires |parts| >= 3
    ensures ParseAddressFromParts(parts)[ToNameKey] == Strip(parts[0])
  {
  }

  /** City, state and ZIP of the record are those the last line sets. */
  lemma ParseCsz(parts: seq<string>)
    requires |parts| >= 3
    ensures var d := ParseAddressFromParts(parts);
      var c := SetCityStateZip(map[ToNameKey := Strip(parts[0])], Strip(Last(parts)));
      && (CityToKey in d <==> CityToKey in c) && (CityToKey in c ==> d[CityToKey] == c[CityToKey])
      && (StateToKey in d <==> StateToKey in c) && (StateToKey in c ==> d[StateToKey] == c[StateToKey])
      && (ZipToKey in d <==> ZipToKey in c) && (ZipToKey in c ==> d[ZipToKey] == c[ZipToKey])
  {
  }

  /** The city, state and ZIP a last line with a comma sets. */
  lemma CszWithComma(name: string, last: string)
    requires IndexOf(last, ',') < |last|
    ensures var r := SetCityStateZip(map[ToNameKey := name], last);
      var i := IndexOf(last, ',');
      var after := Words(last[i + 1..]);
      && CityToKey in r && r[CityToKey] == Strip(last[..i])
      && (forall k :: 0 <= k < |r[CityToKey]| ==> r[CityToKey][k] != ',')
      && (StateToKey in r <==> |after| >= 2) && (ZipToKey in r <==> |after| >= 2)
      && (|after| >= 2 ==> StateToKey in r && ZipToKey in r && r[StateToKey] == after[0] && r[ZipToKey] == after[1])
  {
    CommaCity(name, last);
    CommaStateZip(name, last);
  }

  /** With a comma, the city is the stripped text before it, which holds no comma. */
  lemma CommaCity(name: string, last: string)
    requires IndexOf(last, ',') < |last|
    ensures var r := SetCityStateZip(map[ToNameKey := name], last);
      CityToKey in r && r[CityToKey] == Strip(last[..IndexOf(last, ',')])
      && (forall k :: 0 <= k < |r[CityToKey]| ==> r[CityToKey][k] != ',')
  {
    CommaBranch(name, last);
    CityBeforeComma(last);
  }

  /** With a comma, state and ZIP are the first two words after it, if there are two. */
  lemma CommaStateZip(name: string, last: string)
    requires IndexOf(last, ',') < |last|
    ensures var r := SetCityStateZip(map[ToNameKey := name], last);
      var after := Words(last[IndexOf(last, ',') + 1..]);
      && (StateToKey in r <==> |after| >= 2) && (ZipToKey in r <==> |after| >= 2)
      && (|after| >= 2 ==> StateToKey in r && ZipToKey in r && r[StateToKey] == after[0] && r[ZipToKey] == after[1])
  {
    CommaBranch(name, last);
  }

  /** The record a last line with a comma gives, written out. */
  lemma CommaBranch(name: string, last: string)
    requires IndexOf(last, ',') < |last|
    ensures var i := IndexOf(last, ',');
      var after := Words(last[i + 1..]);
      var withCity := map[ToNameKey := name][CityToKey := Strip(last[..i])];
      SetCityStateZip(map[ToNameKey := name], last)
        == if |after| >= 2 then withCity[StateToKey := after[0]][ZipToKey := after[1]] else withCity
  {
    var i := IndexOf(last, ',');
    var rest := last[i + 1..];
    var withCity := map[ToNameKey := name][CityToKey := Strip(last[..i])];
    CommaUnfold(map[ToNameKey := name], last);
    WordsOfStrip(rest);
    WordsAreWords(rest);
    StateZipOfWords(withCity, Words(rest));
  }

  /** A last line with a comma sets the city, then state and ZIP from the words after it. */
  lemma CommaUnfold(d: Dict, last: string)
    requires IndexOf(last, ',') < |last|
    ensures var i := IndexOf(last, ',');
      SetCityStateZip(d, last) == SetStateZip(d[CityToKey := Strip(last[..i])], Words(Strip(last[i + 1..])))
  {
  }

  /** Words are left as they are by the `strip` of each. */
  lemma StateZipOfWords(d: Dict, ws: seq<string>)
    requires AreWords(ws)
    ensures SetStateZip(d, ws) == if |ws| >= 2 then d[StateToKey := ws[0]][ZipToKey := ws[1]] else d
  {
    if |ws| >= 2 {
      WordStripped(ws[0]);
      WordStripped(ws[1]);
    }
  }

  /** The stripped text before the first comma holds no comma. */
  lemma CityBeforeComma(last: string)
    requires IndexOf(last, ',') < |last|
    ensures var city := Strip(last[..IndexOf(last, ',')]);
      forall k :: 0 <= k < |city| ==> city[k] != ','
  {
    var before := last[..IndexOf(last, ',')];
    var city := Strip(before);
    StripSpec(before);
    var a := LeadingSpace(before);
    forall k | 0 <= k < |city| ensures city[k] != ',' {
      assert city[k] == before[a + k];
    }
  }

  /** With a comma in the last line, CityTo is the stripped text before the first comma, and
      StateTo and ZipTo are present exactly when at least two whitespace-separated words
      follow the comma, in which case they are the first two. */
  lemma ParseCszWithComma(parts: seq<string>)
    requires |parts| >= 3
    requires IndexOf(Strip(Last(parts)), ',') < |Strip(Last(parts))|
    ensures var d := ParseAddressFromParts(parts);
      var last := Strip(Last(parts));
      var i := IndexOf(last, ',');
      var after := Words(last[i + 1..]);
      && CityToKey in d && d[CityToKey] == Strip(last[..i])
      && (forall k :: 0 <= k < |d[CityToKey]| ==> d[CityToKey][k] != ',')
      && (StateToKey in d <==> |after| >= 2) && (ZipToKey in d <==> |after| >= 2)
      && (|after| >= 2 ==> StateToKey in d && ZipToKey in d && d[StateToKey] == after[0] && d[ZipToKey] == after[1])
  {
    ParseCsz(parts);
    CszWithComma(Strip(parts[0]), Strip(Last(parts)));
  }

  /** The city, state and ZIP a last line without a comma sets. */
  lemma CszWithoutComma(name: string, line: string)
    requires IndexOf(Strip(line), ',') == |Strip(line)|
    ensures var r := SetCityStateZip(map[ToNameKey := name], Strip(line));
      var words := Words(line);
      var n := |words|;
      && (StateToKey in r <==> n >= 2) && (ZipToKey in r <==> n >= 2) && (CityToKey in r <==> n >= 2)
      && (n >= 2 ==> r[StateToKey] == words[n - 2] && r[ZipToKey] == words[n - 1])
      && (n >= 2 ==> r[CityToKey] == Join(" ", words[..n - 2]) && Words(r[CityToKey]) == words[..n - 2])
  {
    var last := Strip(line);
    WordsOfStrip(line);
    var words := Words(last);
    WordsAreWords(last);
    var n := |words|;
    if n >= 2 {
      WordStripped(words[n - 2]);
      WordStripped(words[n - 1]);
      var before := words[..n - 2];
      assert AreWords(before);
      JoinWordsStripped(before);
      StripNoop(Join(" ", before));
      WordsOfJoin(before);
    }
  }

  /** Without a comma and with at least two words, StateTo and ZipTo are the last two words
      and CityTo joins the words before them with single spaces, so splitting it gives those
      words back; with fewer than two words none of the three is set. */
  lemma ParseCszWithoutComma(parts: seq<string>)
    requires |parts| >= 3
    requires IndexOf(Strip(Last(parts)), ',') == |Strip(Last(parts))|
    ensures var d := ParseAddressFromParts(parts);
      var words := Words(Last(parts));
      var n := |words|;
      && (StateToKey in d <==> n >= 2) && (ZipToKey in d <==> n >= 2) && (CityToKey in d <==> n >= 2)
      && (n >= 2 ==> d[StateToKey] == words[n - 2] && d[ZipToKey] == words[n - 1])
      && (n >= 2 ==> d[CityToKey] == Join(" ", words[..n - 2]) && Words(d[CityToKey]) == words[..n - 2])
  {
    ParseCsz(parts);
    CszWithoutComma(Strip(parts[0]), Last(parts));
  }

  /** The middle lines: with three lines, Street1To is the second and Street2To is empty;
      with four or more, Street1To and Street2To are the second and third, unless there are
      five or more lines and the third has no digit, in which case the third is CompanyTo and
      Street2To is the fourth line when there are six or more and empty otherwise. */
  lemma ParseStreets(parts: seq<string>)
    requires |parts| >= 3
    ensures var d := ParseAddressFromParts(parts);
      var company := |parts| > 4 && forall k :: 0 <= k < |parts[2]| ==> !IsDigit(parts[2][k]);
      && d[Street1ToKey] == Strip(parts[1])
      && (CompanyToKey in d <==> company)
      && (|parts| == 3 ==> d[Street2ToKey] == "")
      && (|parts| >= 4 && !company ==> d[Street2ToKey] == Strip(parts[2]))
      && (company ==> d[CompanyToKey] == Strip(parts[2]))
      && (company ==> d[Street2ToKey] == if |parts| > 5 then Strip(parts[3]) else "")
  {
    var named := map[ToNameKey := Strip(parts[0])];
    var c := SetCityStateZip(named, Strip(Last(parts)));
    assert CompanyToKey !in c;
    StreetsSet(c, parts);
  }

  /** What the street step sets, on any record. */
  lemma StreetsSet(d: Dict, parts: seq<string>)
    requires |parts| >= 3
    ensures var r := SetStreets(d, parts);
      var company := |parts| > 4 && forall k :: 0 <= k < |parts[2]| ==> !IsDigit(parts[2][k]);
      && r[Street1ToKey] == Strip(parts[1])
      && (company ==> CompanyToKey in r && r[CompanyToKey] == Strip(parts[2]))
      && (!company ==> (CompanyToKey in r <==> CompanyToKey in d))
      && (|parts| == 3 ==> r[Street2ToKey] == "")
      && (|parts| >= 4 && !company ==> r[Street2ToKey] == Strip(parts[2]))
      && (company ==> r[Street2ToKey] == if |parts| > 5 then Strip(parts[3]) else "")
  {
    HasDigitSpec(parts[2]);
  }

  /** With exactly five lines and a digit-free third line, the fourth line is read nowhere:
      the record does not change whatever it holds. */
  lemma FiveLinesIgnoreFourth(parts: seq<string>, other: string)
    requires |parts| == 5
    requires !HasDigit(parts[2])
    ensures ParseAddressFromParts(parts[3 := other]) == ParseAddressFromParts(parts)
  {
    var q := parts[3 := other];
    assert q[0] == parts[0] && q[1] == parts[1] && q[2] == parts[2] && Last(q) == Last(parts);
  }

  /** Four lines in the usual order (name, street, second street line, "City, ST ZIP") are
      read back into exactly the fields they were written from. */
  lemma {:induction false} ParseRoundTrip(
    name: string, street1: string, street2: string, city: string, state: string, zip: string)
    requires IsStripped(name) && IsStripped(street1) && IsStripped(street2) && IsStripped(city)
    requires forall k :: 0 <= k < |city| ==> city[k] != ','
    requires state != [] && NoSpace(state) && zip != [] && NoSpace(zip)
    ensures ParseAddressFromParts([name, street1, street2, city + ", " + state + " " + zip])
      == map[ToNameKey := name, Street1ToKey := street1, Street2ToKey := street2,
             CityToKey := city, StateToKey := state, ZipToKey := zip, PhoneToKey := ""]
  {
    var last := city + ", " + state + " " + zip;
    var parts := [name, street1, street2, last];
    var d := ParseAddressFromParts(parts);
    assert && ToNameKey in d && d[ToNameKey] == name
           && PhoneToKey in d && d[PhoneToKey] == ""
           && Street1ToKey in d && d[Street1ToKey] == street1
           && Street2ToKey in d && d[Street2ToKey] == street2
           && CityToKey in d && d[CityToKey] == city
           && StateToKey in d && d[StateToKey] == state
           && ZipToKey in d && d[ZipToKey] == zip
           && CompanyToKey !in d by {
      assert Last(parts) == last;
      CszLineRoundTrip(city, state, zip);
      StripNoop(name);
      StripNoop(street1);
      StripNoop(street2);
      StripNoop(city);
      ParseName(parts);
      ParseCszWithComma(parts);
      ParseStreets(parts);
    }
    ParseKeys(parts);
    SameEntries(d, name, street1, street2, city, state, zip);
  }

  /** A dictionary with these seven address entries, no company and no other key. */
  lemma SameEntries(
    d: Dict, name: string, street1: string, street2: string, city: string, state: string, zip: string)
    requires && ToNameKey in d && d[ToNameKey] == name
             && PhoneToKey in d && d[PhoneToKey] == ""
             && Street1ToKey in d && d[Street1ToKey] == street1
             && Street2ToKey in d && d[Street2ToKey] == street2
             && CityToKey in d && d[CityToKey] == city
             && StateToKey in d && d[StateToKey] == state
             && ZipToKey in d && d[ZipToKey] == zip
             && CompanyToKey !in d
    requires forall k :: k in d ==>
      k == ToNameKey || k == PhoneToKey || k == Street1ToKey || k == CompanyToKey
      || k == Street2ToKey || k == CityToKey || k == ZipToKey || k == StateToKey
    ensures d == map[ToNameKey := name, Street1ToKey := street1, Street2ToKey := street2,
                     CityToKey := city, StateToKey := state, ZipToKey := zip, PhoneToKey := ""]
  {
    var m := map[ToNameKey := name, Street1ToKey := street1, Street2ToKey := street2,
                 CityToKey := city, StateToKey := state, ZipToKey := zip, PhoneToKey := ""];
    forall k | k in d ensures k in m && d[k] == m[k] {
      if k == ToNameKey {
      } else if k == PhoneToKey {
      } else if k == Street1ToKey {
      } else if k == Street2ToKey {
      } else if k == CityToKey {
      } else if k == StateToKey {
      } else {
        assert k == ZipToKey;
      }
    }
  }

  /** A "City, ST ZIP" line is its own strip; its first comma ends the city, and the words
      after it are the state and the ZIP. */
  lemma CszLineRoundTrip(city: string, state: string, zip: string)
    requires IsStripped(city)
    requires forall k :: 0 <= k < |city| ==> city[k] != ','
    requires state != [] && NoSpace(state) && zip != [] && NoSpace(zip)
    ensures var last := city + ", " + state + " " + zip;
      && Strip(last) == last && IndexOf(last, ',') == |city|
      && last[..|city|] == city && Words(last[|city| + 1..]) == [state, zip]
  {
    var tail := " " + state + " " + zip;
    var last := city + ", " + state + " " + zip;
    assert last == city + [','] + tail by {
      assert |last| == |city + [','] + tail|;
      forall k | 0 <= k < |last| ensures last[k] == (city + [','] + tail)[k] { }
    }
    assert last[|last| - 1] == zip[|zip| - 1];
    assert city != [] ==> last[0] == city[0];
    StripNoop(last);
    FirstAt(city, ',', tail);
    TwoWords(state, zip);
  }

  /** The first `c` of `a + [c] + b` is right after `a` when `a` has none. */
  lemma FirstAt(a: string, c: char, b: string)
    requires forall k :: 0 <= k < |a| ==> a[k] != c
    ensures IndexOf(a + [c] + b, c) == |a|
    ensures (a + [c] + b)[..|a|] == a && (a + [c] + b)[|a| + 1..] == b
  {
    var s := a + [c] + b;
    assert s[|a|] == c;
  }

  /** `" ST ZIP".split()` is `[ST, ZIP]`. */
  lemma TwoWords(state: string, zip: string)
    requires state != [] && NoSpace(state) && zip != [] && NoSpace(zip)
    ensures Words(" " + state + " " + zip) == [state, zip]
  {
    var pair := state + " " + zip;
    assert " " + state + " " + zip == " " + pair;
    assert Join(" ", [state, zip]) == pair;
    WordsOfJoin([state, zip]);
    assert (" " + pair)[1..] == pair;
  }

  /** The record holds no key besides the eight address fields. */
  lemma ParseKeys(parts: seq<string>)
    requires |parts| >= 3
    ensures forall k :: k in ParseAddressFromParts(parts) ==>
      k == ToNameKey || k == PhoneToKey || k == Street1ToKey || k == CompanyToKey
      || k == Street2ToKey || k == CityToKey || k == ZipToKey || k == StateToKey
  {
  }

  // ---------------------------------------------------------------------------------------
  // The order id after the last '#'
  // ---------------------------------------------------------------------------------------

  /** `text.split('#')[-1].strip()`. */
  function OrderIdAfterHash(text: string): (id: string)
    ensures |id| <= |text|
    ensures forall k :: 0 <= k < |id| ==> id[k] != '#'
  {
    var tail := Last(SplitOn(text, '#'));
    SplitOnLast(text, '#');
    assert forall k :: 0 <= k < |tail| ==> tail[k] == text[|text| - |tail| + k];
    StripKeepsOut(tail, '#');
    Strip(tail)
  }

  /** Stripping adds no character. */
  lemma StripKeepsOut(s: string, c: char)
    requires forall k :: 0 <= k < |s| ==> s[k] != c
    ensures forall k :: 0 <= k < |Strip(s)| ==> Strip(s)[k] != c
  {
    StripSpec(s);
    var a := LeadingSpace(s);
    forall k | 0 <= k < |Strip(s)| ensures Strip(s)[k] != c {
      assert Strip(s)[k] == s[a + k];
    }
  }

  /** The id is whatever follows the last '#', stripped; text without '#' is its own id. */
  lemma OrderIdAfterLastHash(prefix: string, id: string)
    requires forall k :: 0 <= k < |id| ==> id[k] != '#'
    ensures OrderIdAfterHash(prefix + "#" + id) == Strip(id)
    ensures OrderIdAfterHash(id) == Strip(id)
  {
    var s := prefix + "#" + id;
    assert s[|prefix| + 1..] == id;
    forall k | |s| - |id| <= k < |s| ensures s[k] != '#' {
      assert s[k] == id[k - |prefix| - 1];
    }
    LastPieceIs(s, '#', |id|);
    LastPieceIs(id, '#', |id|);
  }

  // ---------------------------------------------------------------------------------------
  // extract_shipping_info
  // ---------------------------------------------------------------------------------------

  /** A buyer-address section: the text of its `a-dropdown-prompt` span if there is one, the
      texts of the spans in its full-name address div if there is such a div, and the nearest
      preceding string holding "Order #" if there is one. */
  datatype Section = Section(prompt: Option<string>, spans: Option<seq<string>>, orderText: Option<string>)

  /** A generic block whose class mentions "address": its text joined with newlines, and the
      order id found by searching its ancestors (the search itself is not part of this model). */
  datatype Block = Block(text: string, nearbyOrderId: string)

  /** What the extractor looks at: the buyer-address sections, the texts of the
      shipping-address divs, the first string of the page holding "Order #", and the generic
      address blocks. */
  datatype LocalPage = LocalPage(
    sections: seq<Section>, addressDivs: seq<string>, firstOrderText: Option<string>,
    blocks: seq<Block>)

  /** The span texts that are not blank, stripped, in order. */
  function AddressLines(spans: seq<string>): (lines: seq<string>)
    ensures |lines| <= |spans|
    ensures forall k :: 0 <= k < |lines| ==> lines[k] != [] && IsStripped(lines[k])
  {
    if spans == [] then []
    else
      var t := Strip(Last(spans));
      AddressLines(spans[..|spans| - 1]) + (if t != "" then [t] else [])
  }

  /** Strips each span text and keeps the non-blank ones. */
  method CollectLines(spans: seq<string>) returns (lines: seq<string>)
    ensures lines == AddressLines(spans)
  {
    lines := [];
    var i := 0;
    while i < |spans|
      invariant 0 <= i <= |spans|
      invariant lines == AddressLines(spans[..i])
    {
      assert spans[..i + 1][..i] == spans[..i];
      var t := Strip(spans[i]);
      if t != "" {
        lines := lines + [t];
      }
      i := i + 1;
    }
    assert spans[..|spans|] == spans;
  }

  /** A line is dropped only when it is blank: a span text with a non-whitespace character
      is kept, stripped. */
  lemma {:induction false} AddressLinesKeep(spans: seq<string>)
    ensures (forall k :: 0 <= k < |spans| ==> Strip(spans[k]) != "") ==> AddressLines(spans) == seq(|spans|, k requires 0 <= k < |spans| => Strip(spans[k]))
    ensures (forall k :: 0 <= k < |spans| ==> Strip(spans[k]) == "") ==> AddressLines(spans) == []
  {
    if spans != [] {
      AddressLinesKeep(spans[..|spans| - 1]);
    }
  }

  /** The record of one section, if it passes the gate: the prompt's name, overwritten by the
      parse of the address lines when there are any, and the order id when an "Order #"
      string precedes the section; kept only when it has both ToName and Street1To. */
  function SectionRecord(sec: Section): Option<Dict>
  {
    var named := if sec.prompt.Some? then map[ToNameKey := Strip(sec.prompt.value)] else map[];
    var lines := if sec.spans.Some? then AddressLines(sec.spans.value) else [];
    var parsed := if lines != [] then named + ParseAddressFromParts(lines) else named;
    var withId :=
      if sec.orderText.Some? then parsed[OrderIdKey := OrderIdAfterHash(sec.orderText.value)]
      else parsed;
    if withId != map[] && ToNameKey in withId && Street1ToKey in withId then Some(withId) else None
  }

  /** Fills the record of one section field by field. */
  method SectionRecordOf(sec: Section) returns (r: Option<Dict>)
    ensures r == SectionRecord(sec)
  {
    var address: Dict := map[];
    if sec.prompt.Some? {
      address := address[ToNameKey := Strip(sec.prompt.value)];
    }
    if sec.spans.Some? {
      var lines := CollectLines(sec.spans.value);
      if lines != [] {
        address := address + ParseAddressFromParts(lines);
      }
    }
    if sec.orderText.Some? {
      address := address[OrderIdKey := OrderIdAfterHash(sec.orderText.value)];
    }
    if address != map[] && ToNameKey in address && Street1ToKey in address {
      r := Some(address);
    } else {
      r := None;
    }
  }

  /** A section is emitted exactly when its address div holds at least three non-blank
      lines; its name and street are then the first two lines, the prompt never wins, and it
      carries an order id exactly when an "Order #" string precedes it. */
  lemma SectionGate(sec: Section)
    ensures var lines := if sec.spans.Some? then AddressLines(sec.spans.value) else [];
      var r := SectionRecord(sec);
      && (r.Some? <==> |lines| >= 3)
      && (r.Some? ==> r.value[ToNameKey] == lines[0] && r.value[Street1ToKey] == lines[1])
      && (r.Some? ==> (OrderIdKey in r.value <==> sec.orderText.Some?))
      && (r.Some? && sec.orderText.Some? ==> r.value[OrderIdKey] == OrderIdAfterHash(sec.orderText.value))
  {
    var named := if sec.prompt.Some? then map[ToNameKey := Strip(sec.prompt.value)] else map[];
    var lines := if sec.spans.Some? then AddressLines(sec.spans.value) else [];
    UpdateWithLines(named, lines);
    var parsed := if lines != [] then named + ParseAddressFromParts(lines) else named;
    var withId :=
      if sec.orderText.Some? then parsed[OrderIdKey := OrderIdAfterHash(sec.orderText.value)] else parsed;
    assert SectionRecord(sec)
      == if withId != map[] && ToNameKey in withId && Street1ToKey in withId then Some(withId) else None;
  }

  /** `address.update(parse_address_from_parts(lines))` on a record holding at most a
      name: with three lines or more the name and street are the first two lines; with fewer
      the record is unchanged; no order id appears. */
  lemma UpdateWithLines(named: Dict, lines: seq<string>)
    requires forall k :: k in named ==> k == ToNameKey
    requires forall k :: 0 <= k < |lines| ==> IsStripped(lines[k])
    ensures var p := if lines != [] then named + ParseAddressFromParts(lines) else named;
      && (|lines| >= 3 ==> ToNameKey in p && p[ToNameKey] == lines[0])
      && (|lines| >= 3 ==> Street1ToKey in p && p[Street1ToKey] == lines[1])
      && (|lines| < 3 ==> p == named)
      && OrderIdKey !in p
  {
    if |lines| >= 3 {
      StripNoop(lines[0]);
      StripNoop(lines[1]);
      ParseName(lines);
      ParseStreets(lines);
      ParseKeys(lines);
    }
  }

  /** The record of one shipping-address div: its text is stripped and split at newlines; it
      is kept when the parse is not empty, with the order id of the page's first "Order #"
      string or the empty id. */
  function DivRecord(text: string, orderText: Option<string>): Option<Dict>
  {
    var t := Strip(text);
    if t == "" then None
    else
      var orderId := if orderText.Some? then OrderIdAfterHash(orderText.value) else "";
      var address := ParseAddressFromParts(SplitOn(t, '\n'));
      if address != map[] then Some(address[OrderIdKey := orderId]) else None
  }

  /** A div is emitted exactly when its stripped text has at least three lines, and then it
      always carries an order id. */
  lemma DivGate(text: string, orderText: Option<string>)
    ensures var r := DivRecord(text, orderText);
      && (r.Some? <==> |SplitOn(Strip(text), '\n')| >= 3)
      && (r.Some? ==> OrderIdKey in r.value && ToNameKey in r.value && Street1ToKey in r.value)
  {
  }

  /** The record of one generic block: at least three lines, and a parse with both
      Street1To and CityTo, tagged with the order id found near the block. */
  function BlockRecord(b: Block): Option<Dict>
  {
    var t := Strip(b.text);
    if t != "" && |SplitOn(t, '\n')| >= 3 then
      var address := ParseAddressFromParts(SplitOn(t, '\n'));
      if address != map[] && Street1ToKey in address && CityToKey in address then
        Some(address[OrderIdKey := b.nearbyOrderId])
      else None
    else None
  }

  /** A block is emitted exactly when it has at least three lines and its last line either
      holds a comma or has at least two words, that is, when the parse found a city. */
  lemma BlockGate(b: Block)
    ensures var lines := SplitOn(Strip(b.text), '\n');
      var r := BlockRecord(b);
      && (r.Some? <==>
            |lines| >= 3
            && (IndexOf(Strip(Last(lines)), ',') < |Strip(Last(lines))| || |Words(Last(lines))| >= 2))
      && (r.Some? ==> r.value[OrderIdKey] == b.nearbyOrderId && CityToKey in r.value)
  {
    var t := Strip(b.text);
    var lines := SplitOn(t, '\n');
    if |lines| >= 3 {
      assert t != "" by {
        if t == "" {
          SplitOnNone(t, '\n');
        }
      }
      var last := Strip(Last(lines));
      WordsOfStrip(Last(lines));
      if IndexOf(last, ',') < |last| {
        ParseCszWithComma(lines);
      } else {
        ParseCszWithoutComma(lines);
      }
    }
  }

  /** The records `f` keeps from `xs`, in order. */
  function Collect<T>(xs: seq<T>, f: T -> Option<Dict>): (rs: seq<Dict>)
    ensures |rs| <= |xs|
  {
    if xs == [] then []
    else
      var r := f(Last(xs));
      Collect(xs[..|xs| - 1], f) + (if r.Some? then [r.value] else [])
  }

  /** Every collected record is the record of one of the inputs. */
  lemma {:induction false} CollectFrom<T>(xs: seq<T>, f: T -> Option<Dict>)
    ensures forall r :: r in Collect(xs, f) ==> exists k :: 0 <= k < |xs| && f(xs[k]) == Some(r)
  {
    if xs != [] {
      var init := xs[..|xs| - 1];
      CollectFrom(init, f);
      forall r | r in Collect(xs, f) ensures exists k :: 0 <= k < |xs| && f(xs[k]) == Some(r) {
        if r in Collect(init, f) {
          var k :| 0 <= k < |init| && f(init[k]) == Some(r);
          assert xs[k] == init[k];
        } else {
          assert f(xs[|xs| - 1]) == Some(r);
        }
      }
    }
  }

  /** One more input adds its record, if it has one, at the end. */
  lemma CollectStep<T>(xs: seq<T>, i: nat, f: T -> Option<Dict>)
    requires i < |xs|
    ensures Collect(xs[..i + 1], f) == Collect(xs[..i], f) + (if f(xs[i]).Some? then [f(xs[i]).value] else [])
  {
    assert xs[..i + 1][..i] == xs[..i];
  }

  /** Nothing is collected exactly when `f` keeps none of the inputs. */
  lemma {:induction false} CollectEmpty<T>(xs: seq<T>, f: T -> Option<Dict>)
    ensures Collect(xs, f) == [] <==> forall k :: 0 <= k < |xs| ==> f(xs[k]).None?
  {
    if xs != [] {
      var init := xs[..|xs| - 1];
      CollectEmpty(init, f);
      if Collect(xs, f) == [] {
        forall k | 0 <= k < |xs| ensures f(xs[k]).None? {
          if k < |init| { assert xs[k] == init[k]; }
        }
      }
    }
  }

  function SectionRecords(sections: seq<Section>): seq<Dict> {
    Collect(sections, SectionRecord)
  }

  function DivRecords(divs: seq<string>, orderText: Option<string>): seq<Dict> {
    Collect(divs, (t: string) => DivRecord(t, orderText))
  }

  function BlockRecords(blocks: seq<Block>): seq<Dict> {
    Collect(blocks, BlockRecord)
  }

  /** The list `extract_shipping_info` returns: the section records when the page has
      sections and the div records otherwise; the generic blocks only when that gave
      nothing. */
  function ExtractLocal(page: LocalPage): seq<Dict>
  {
    var found :=
      if page.sections == [] then DivRecords(page.addressDivs, page.firstOrderText)
      else SectionRecords(page.sections);
    if found == [] then BlockRecords(page.blocks) else found
  }

  /** The loop of the section pass, filling each record field by field. */
  method CollectSections(sections: seq<Section>) returns (rs: seq<Dict>)
    ensures rs == SectionRecords(sections)
  {
    rs := [];
    var i := 0;
    while i < |sections|
      invariant 0 <= i <= |sections|
      invariant rs == Collect(sections[..i], SectionRecord)
    {
      CollectStep(sections, i, SectionRecord);
      var r := SectionRecordOf(sections[i]);
      if r.Some? {
        rs := rs + [r.value];
      }
      i := i + 1;
    }
    assert sections[..|sections|] == sections;
  }

  /** The loop of the div and block passes: every input's record, in order, the inputs that
      give none skipped. */
  method CollectAll<T>(xs: seq<T>, f: T -> Option<Dict>) returns (rs: seq<Dict>)
    ensures rs == Collect(xs, f)
  {
    rs := [];
    var i := 0;
    while i < |xs|
      invariant 0 <= i <= |xs|
      invariant rs == Collect(xs[..i], f)
    {
      CollectStep(xs, i, f);
      var r := f(xs[i]);
      if r.Some? {
        rs := rs + [r.value];
      }
      i := i + 1;
    }
    assert xs[..|xs|] == xs;
  }

  /** `extract_shipping_info` over the page views. */
  method ExtractShippingInfo(page: LocalPage) returns (addresses: seq<Dict>)
    ensures addresses == ExtractLocal(page)
  {
    if page.sections == [] {
      addresses := CollectAll(page.addressDivs, (t: string) => DivRecord(t, page.firstOrderText));
    } else {
      addresses := CollectSections(page.sections);
    }
    if addresses == [] {
      addresses := CollectAll(page.blocks, BlockRecord);
    }
  }

  /** Every record returned has a name and both street lines, comes from one input of the
      pass that produced it, and carries an order id unless it is a section record with no
      "Order #" string before it. */
  lemma ExtractLocalRecords(page: LocalPage)
    ensures forall a :: a in ExtractLocal(page) ==>
      ToNameKey in a && Street1ToKey in a && Street2ToKey in a && PhoneToKey in a
    ensures page.sections == [] ==> forall a :: a in ExtractLocal(page) ==> OrderIdKey in a
  {
    var found :=
      if page.sections == [] then DivRecords(page.addressDivs, page.firstOrderText)
      else SectionRecords(page.sections);
    SectionRecordsHave(page.sections);
    DivRecordsHave(page.addressDivs, page.firstOrderText);
    BlockRecordsHave(page.blocks);
    assert ExtractLocal(page) == if found == [] then BlockRecords(page.blocks) else found;
  }

  /** Every section record has a name, both street lines and a phone. */
  lemma SectionRecordsHave(sections: seq<Section>)
    ensures forall a :: a in SectionRecords(sections) ==>
      ToNameKey in a && Street1ToKey in a && Street2ToKey in a && PhoneToKey in a
  {
    CollectFrom(sections, SectionRecord);
    forall k | 0 <= k < |sections| && SectionRecord(sections[k]).Some?
      ensures var a := SectionRecord(sections[k]).value;
        ToNameKey in a && Street1ToKey in a && Street2ToKey in a && PhoneToKey in a
    {
      SectionGate(sections[k]);
    }
  }

  /** Every div record has a name, both street lines, a phone and an order id. */
  lemma DivRecordsHave(divs: seq<string>, orderText: Option<string>)
    ensures forall a :: a in DivRecords(divs, orderText) ==>
      ToNameKey in a && Street1ToKey in a && Street2ToKey in a && PhoneToKey in a && OrderIdKey in a
  {
    CollectFrom(divs, (t: string) => DivRecord(t, orderText));
  }

  /** Every block record has a name, both street lines, a phone and an order id. */
  lemma BlockRecordsHave(blocks: seq<Block>)
    ensures forall a :: a in BlockRecords(blocks) ==>
      ToNameKey in a && Street1ToKey in a && Street2ToKey in a && PhoneToKey in a && OrderIdKey in a
  {
    CollectFrom(blocks, BlockRecord);
  }

  /** The passes are tried in order: with sections, the divs are never looked at; once the
      first pass has found anything, the generic blocks are never looked at; when every
      input of the first pass is rejected, the result is the block records. */
  lemma ExtractLocalCascade(page: LocalPage, divs: seq<string>, blocks: seq<Block>)
    ensures page.sections != [] ==> ExtractLocal(page.(addressDivs := divs)) == ExtractLocal(page)
    ensures page.sections != [] && SectionRecords(page.sections) != [] ==>
      ExtractLocal(page.(blocks := blocks)) == ExtractLocal(page)
    ensures page.sections != [] && (forall k :: 0 <= k < |page.sections| ==> SectionRecord(page.sections[k]).None?)
      ==> ExtractLocal(page) == BlockRecords(page.blocks)
  {
    CollectEmpty(page.sections, SectionRecord);
  }
}
