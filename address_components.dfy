/** `extract_address_components`: independent searches over a block of free text, each
    filling one or three fields of a fresh record. */
module AddressComponents {
  import opened Text
  import opened Patterns
  import opened Shipping

  /** Group 1 of the leftmost match of `([A-Z][a-z]+(?:\s+[A-Z][a-z]+){1,3})`. */
  function NameCandidate(text: string): (r: Option<string>)
    ensures r.Some? ==> |r.value| >= 5
  {
    match NameSearch(text)
    case None => None
    case Some(ws) =>
      assert ws[0].start <= Last(ws).start;
      Some(text[ws[0].start..Last(ws).end])
  }

  /** The record built from `text`. The name candidate is dropped when it occurs anywhere in
      the text followed by a comma and two capitals, as a city would be; the street is the
      unstripped group of the street pattern; the city is stripped but state and ZIP are
      taken as matched; the phone is the whole phone match. Company, second street line and
      order id are never set, and the record has no order_id key. */
  function Components(text: string): (r: ShippingInfo)
    ensures r.companyTo == "" && r.street2To == "" && r.orderId.None?
  {
    var name :=
      match NameCandidate(text)
      case None => ""
      case Some(n) => if CityLikeFrom(text, n, 0) then "" else n;
    var street :=
      match StreetSearch(text)
      case None => ""
      case Some(m) => text[m.start..m.end];
    var (city, state, zip) :=
      match CszSearch(text)
      case None => ("", "", "")
      case Some(m) => (Strip(CszCity(text, m)), CszState(text, m), CszZip(text, m));
    var phone :=
      match PhoneSearch(text)
      case None => ""
      case Some(p) => text[p.start..p.end];
    ShippingInfo(name, phone, street, "", "", city, zip, state, None)
  }

  /** The candidate is a run of two to four capitalised words, and there is none exactly
      when the text holds no run of two capitalised words separated by whitespace. */
  lemma NameCandidateSound(text: string)
    ensures var r := NameCandidate(text);
      && (r.Some? ==> IsCapName(r.value))
      && (r.None? ==> forall k :: 0 <= k <= |text| ==> NameAt(text, k).None?)
      && (r.None? <==> forall ws: seq<Span> :: IsWordRun(text, ws) ==> |ws| < 2)
  {
    NameSearchSound(text);
    match NameSearch(text)
    case None =>
      assert NameCandidate(text).None?;
    case Some(ws) =>
      CoveredIsCapName(text, ws);
      assert NameCandidate(text).Some?;
      assert IsWordRun(text, ws) && !(|ws| < 2);
  }

  /** ToName is the first name candidate, kept exactly when it never occurs followed by
      ", XX"; a kept name is a capitalised name. */
  lemma ComponentsName(text: string)
    ensures var r := Components(text);
      var c := NameCandidate(text);
      && (c.None? ==> r.toName == "")
      && (c.Some? ==> (r.toName == "" <==> exists q :: 0 <= q <= |text| && CityLikeAt(text, c.value, q)))
      && (c.Some? && r.toName != "" ==> r.toName == c.value)
      && (r.toName != "" ==> IsCapName(r.toName))
  {
    NameCandidateSound(text);
    match NameCandidate(text)
    case None =>
    case Some(n) => CityLikeFromSpec(text, n, 0);
  }

  /** Street1To is the leftmost match of the street pattern, unstripped: it starts with the
      house number's digits and then whitespace. */
  lemma ComponentsStreet(text: string)
    ensures var r := Components(text);
      var m := StreetSearch(text);
      && (r.street1To == "" <==> m.None?)
      && (m.Some? ==> IsStreetMatch(text, m.value) && r.street1To == text[m.value.start..m.value.end])
      && (m.Some? ==> forall k :: 0 <= k < m.value.start ==> StreetAt(text, k).None?)
  {
    StreetSearchSound(text);
  }

  /** City, state and ZIP come from one match of the city/state/ZIP pattern, and only when
      the text holds a comma: a state of two capitals, a five-digit ZIP with an optional
      four-digit extension, a stripped city of letters and whitespace. */
  lemma ComponentsCsz(text: string)
    ensures var r := Components(text);
      && (r.stateTo == "" <==> CszSearch(text).None?)
      && (r.zipTo == "" <==> CszSearch(text).None?)
      && (r.stateTo != "" ==> IsStateCode(r.stateTo) && IsZip(r.zipTo) && ',' in text)
      && (r.cityTo != "" ==> r.stateTo != "")
      && (forall k :: 0 <= k < |r.cityTo| ==> IsAlphaOrSpace(r.cityTo[k]))
      && IsStripped(r.cityTo)
  {
    CszSearchSound(text);
    match CszSearch(text)
    case None =>
    case Some(m) =>
      CszGroups(text, m);
      StripInside(CszCity(text, m));
  }

  /** PhoneTo is the whole leftmost match of the phone pattern, ten characters or more and
      ending in four digits; it is empty exactly when the pattern matches nowhere. */
  lemma ComponentsPhone(text: string)
    ensures var r := Components(text);
      var m := PhoneSearch(text);
      && (r.phoneTo == "" <==> m.None?)
      && (r.phoneTo != "" ==> |r.phoneTo| >= 10 && AllDigits(r.phoneTo[|r.phoneTo| - 4..]))
      && (m.Some? ==> r.phoneTo == text[m.value.start..m.value.end])
      && (m.Some? ==> exists n, p, q, x, u :: IsPhoneMatch(text, m.value.start, n, p, q, x, u, m.value.end))
      && (m.Some? ==> forall k: nat, n: nat, p: nat, q: nat, x: nat, u: nat, e: nat ::
            IsPhoneMatch(text, k, n, p, q, x, u, e) ==> m.value.start <= k)
      && (r.phoneTo == "" <==> forall k: nat, n: nat, p: nat, q: nat, x: nat, u: nat, e: nat ::
            !IsPhoneMatch(text, k, n, p, q, x, u, e))
  {
    PhoneSearchSound(text);
    match PhoneSearch(text)
    case None =>
    case Some(sp) =>
      var ph := text[sp.start..sp.end];
      assert ph[|ph| - 4..] == text[sp.end - 4..sp.end];
  }
}
