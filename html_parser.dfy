/** `utils/html_parser.extract_shipping_info`: five strategies tried in a fixed order over a
    parsed order page, the first that yields a record deciding the answer. The parsed page
    is given as the views each strategy queries (buyer spans with their ancestor chain,
    table rows, form fields, bare address divs, the page text); producing those views from
    HTML is not part of this model. */
module HtmlParser {
  import opened Text
  import opened Patterns
  import opened CombinedField
  import opened Shipping
  import opened AddressComponents

  // ---------------------------------------------------------------------------------
  // The parsed page
  // ---------------------------------------------------------------------------------

  /** An `<a>` element: its `href` attribute, if any, and its text. */
  datatype Anchor = Anchor(href: Option<string>, text: string)

  /** An element on the way up from a buyer span: its tag name and the `<a>` elements below
      it, in document order. */
  datatype Ancestor = Ancestor(tag: string, links: seq<Anchor>)

  /** A span with `data-test-id="shipping-section-buyer-po"`. `path` is the span itself
      followed by its ancestors, innermost first, up to the document root. `addressDiv`
      holds the text of every span of its first buyer-address div, in document order. */
  datatype BuyerSpan = BuyerSpan(path: seq<Ancestor>, addressDiv: Option<seq<string>>)

  /** A `<tr>`: its `<a>` elements and the span texts of its first buyer-address div. */
  datatype Row = Row(links: seq<Anchor>, addressDiv: Option<seq<string>>)

  /** The nine form fields looked up by element id, in the order the parser visits them. */
  datatype FormField =
    | ToNameField | Street1Field | CityField | StateField | ZipField
    | PhoneField | CompanyField | Street2Field | OrderIdField

  /** A buyer-address div met by the bare-div strategy: its whole text, the texts of its
      spans that carry no class, and for each ancestor, innermost first, its `<a>` elements. */
  datatype AddressDiv = AddressDiv(text: string, plainSpans: seq<string>, parents: seq<seq<Anchor>>)

  /** What the strategies see of a page. `form` maps each field whose element exists to the
      element's `value` attribute ('' when it has none). */
  datatype Page = Page(
    buyerSpans: seq<BuyerSpan>, rows: seq<Row>, form: map<FormField, string>,
    addressDivs: seq<AddressDiv>, text: string)

  /** A page, or an input on which parsing raised (the parser then returns None). */
  datatype Document = Unparseable | Parsed(page: Page)

  // ---------------------------------------------------------------------------------
  // Order links
  // ---------------------------------------------------------------------------------

  /** `href and '/order/' in href` (an absent or empty href never qualifies). */
  predicate IsOrderLink(a: Anchor) {
    a.href.Some? && Contains(a.href.value, "/order/")
  }

  /** Index of the first order link, or `|links|` when there is none. */
  function FirstOrderLink(links: seq<Anchor>): (i: nat)
    ensures i <= |links|
    ensures forall k :: 0 <= k < i ==> !IsOrderLink(links[k])
    ensures i < |links| ==> IsOrderLink(links[i])
  {
    if links == [] then 0
    else if IsOrderLink(links[0]) then 0
    else 1 + FirstOrderLink(links[1..])
  }

  /** The order number in the stripped text of the first order link, or ''. */
  function LinkOrderId(links: seq<Anchor>): string {
    var i := FirstOrderLink(links);
    if i < |links| then FindOrderId(Strip(links[i].text)).GetOr("") else ""
  }

  /** The order id a row's links give is '' or an order number found in the text of the
      first order link of the row. */
  lemma LinkOrderIdSound(links: seq<Anchor>)
    ensures var id := LinkOrderId(links);
      var i := FirstOrderLink(links);
      id != "" ==> i < |links| && IsOrderId(id) && Contains(Strip(links[i].text), id)
  {
  }

  // ---------------------------------------------------------------------------------
  // Strategy 1: buyer spans
  // ---------------------------------------------------------------------------------

  /** Index in `path` of the `<tr>` the walk up from the span stops at: the walk looks at the
      span and at most eight ancestors, and gives up at the root. */
  function RowFrom(path: seq<Ancestor>, i: nat): (r: Option<nat>)
    requires i <= 8
    ensures r.Some? ==> i <= r.value <= 8 && r.value < |path| && path[r.value].tag == "tr"
    ensures r.Some? ==> forall k :: i <= k < r.value ==> path[k].tag != "tr"
    ensures r.None? ==> forall k :: i <= k < |path| && k <= 8 ==> path[k].tag != "tr"
    decreases 8 - i
  {
    if i >= |path| then None
    else if path[i].tag == "tr" then Some(i)
    else if i == 8 then None
    else RowFrom(path, i + 1)
  }

  function RowIndex(path: seq<Ancestor>): Option<nat> {
    RowFrom(path, 0)
  }

  /** The walk up the tree, one parent per step, for at most eight steps. */
  method WalkToRow(path: seq<Ancestor>) returns (row: Option<nat>)
    ensures row == RowIndex(path)
  {
    var cur := 0;
    var step := 0;
    while step < 8
      invariant cur == step <= 8
      invariant forall k :: 0 <= k < cur && k < |path| ==> path[k].tag != "tr"
    {
      if cur >= |path| || path[cur].tag == "tr" {
        break;
      }
      cur := cur + 1;
      step := step + 1;
    }
    if cur < |path| && path[cur].tag == "tr" {
      row := Some(cur);
    } else {
      row := None;
    }
  }

  /** The order id of a buyer span: from the links of the row above it, or ''. */
  function SpanOrderId(path: seq<Ancestor>): string {
    match RowIndex(path)
    case None => ""
    case Some(i) => LinkOrderId(path[i].links)
  }

  /** A span's order id is '' or an order number taken from the first order link of a `<tr>`
      that is the span itself or one of its eight nearest ancestors, with no `<tr>` closer. */
  lemma SpanOrderIdSound(path: seq<Ancestor>)
    ensures var id := SpanOrderId(path);
      id != "" ==>
        var i := RowIndex(path).value;
        var links := path[i].links;
        && RowIndex(path).Some? && i <= 8 && path[i].tag == "tr"
        && (forall k :: 0 <= k < i ==> path[k].tag != "tr")
        && IsOrderId(id) && Contains(Strip(links[FirstOrderLink(links)].text), id)
  {
    match RowIndex(path)
    case None =>
    case Some(i) => LinkOrderIdSound(path[i].links);
  }

  /** The span texts of an address div: each stripped, blank ones dropped, then every
      "<br>" removed (which may leave an empty text). */
  function CleanTexts(raws: seq<string>): (texts: seq<string>)
    ensures |texts| <= |raws|
  {
    if raws == [] then []
    else
      var t := Strip(Last(raws));
      CleanTexts(raws[..|raws| - 1]) + (if t != "" then [RemoveAll(t, "<br>")] else [])
  }

  method CollectTexts(raws: seq<string>) returns (texts: seq<string>)
    ensures texts == CleanTexts(raws)
  {
    texts := [];
    var i := 0;
    while i < |raws|
      invariant i <= |raws|
      invariant texts == CleanTexts(raws[..i])
    {
      var t := Strip(raws[i]);
      if t != "" {
        texts := texts + [RemoveAll(t, "<br>")];
      }
      assert raws[..i + 1][..i] == raws[..i];
      i := i + 1;
    }
    assert raws[..i] == raws;
  }

  /** Texts that are already stripped, non-empty and free of "<br>" come through unchanged. */
  lemma {:induction false} CleanTextsKeepsClean(raws: seq<string>)
    requires forall k :: 0 <= k < |raws| ==> raws[k] != "" && IsStripped(raws[k]) && !Contains(raws[k], "<br>")
    ensures CleanTexts(raws) == raws
  {
    if raws != [] {
      var init := raws[..|raws| - 1];
      CleanTextsKeepsClean(init);
      StripNoop(Last(raws));
      assert raws == init + [Last(raws)];
    }
  }

  /** Texts made only of whitespace are dropped. */
  lemma {:induction false} CleanTextsDropsBlank(raws: seq<string>)
    requires forall k :: 0 <= k < |raws| ==> forall j :: 0 <= j < |raws[k]| ==> IsSpace(raws[k][j])
    ensures CleanTexts(raws) == []
  {
    if raws != [] {
      CleanTextsDropsBlank(raws[..|raws| - 1]);
      StripEmpty(Last(raws));
    }
  }

  /** The record a list of address texts gives: name from the first, street from the second,
      city, state and ZIP from the city/state/ZIP match in the rest joined by spaces. */
  function FillFromTexts(texts: seq<string>, orderId: string): ShippingInfo {
    var csz := CszFields(if |texts| > 2 then Join(" ", texts[2..]) else "");
    ShippingInfo(
      if |texts| >= 1 then texts[0] else "", "", if |texts| >= 2 then texts[1] else "",
      "", "", csz.0, csz.2, csz.1, Some(orderId))
  }

  /** The dictionary of strategies 1 and 2, filled one key at a time. */
  method FillRecord(texts: seq<string>, orderId: string) returns (info: ShippingInfo)
    ensures info == FillFromTexts(texts, orderId)
  {
    info := BlankWithOrder(orderId);
    if |texts| >= 1 {
      info := info.(toName := texts[0]);
    }
    if |texts| >= 2 {
      info := info.(street1To := texts[1]);
    }
    var cszText := "";
    if |texts| > 2 {
      cszText := Join(" ", texts[2..]);
    }
    var m := CszSearch(cszText);
    if m.Some? {
      info := info.(cityTo := Strip(CszCity(cszText, m.value)),
                    stateTo := Strip(CszState(cszText, m.value)),
                    zipTo := Strip(CszZip(cszText, m.value)));
    }
  }

  /** The record a buyer span fills in, before the gate; None when it has no address div. */
  function SpanRecord(span: BuyerSpan): Option<ShippingInfo> {
    match span.addressDiv
    case None => None
    case Some(raws) => Some(FillFromTexts(CleanTexts(raws), SpanOrderId(span.path)))
  }

  method SpanRecordOf(span: BuyerSpan) returns (r: Option<ShippingInfo>)
    ensures r == SpanRecord(span)
  {
    var orderId := "";
    var row := WalkToRow(span.path);
    if row.Some? {
      orderId := LinkOrderId(span.path[row.value].links);
    }
    r := None;
    if span.addressDiv.Some? {
      var texts := CollectTexts(span.addressDiv.value);
      var info := FillRecord(texts, orderId);
      r := Some(info);
    }
  }

  /** A filled record that passes the gate of strategies 1, 2 and 4. */
  function Passing(c: Option<ShippingInfo>): (r: Option<ShippingInfo>)
    ensures r.Some? <==> c.Some? && Complete(c.value)
    ensures r.Some? ==> r == c
  {
    if c.Some? && Complete(c.value) then c else None
  }

  /** The records filled in by `f` over `xs` that pass the gate, in order. */
  function Gather<T>(xs: seq<T>, f: T -> Option<ShippingInfo>): (rs: seq<ShippingInfo>)
    ensures |rs| <= |xs|
  {
    if xs == [] then [] else Gather(xs[..|xs| - 1], f) + Maybe(Passing(f(Last(xs))))
  }

  /** `if all([ToName, Street1To, CityTo, StateTo, ZipTo]): shipping_addresses.append(...)` */
  method AppendIfComplete(rs: seq<ShippingInfo>, r: Option<ShippingInfo>) returns (rs': seq<ShippingInfo>)
    ensures rs' == rs + Maybe(Passing(r))
  {
    rs' := rs;
    if r.Some? && Complete(r.value) {
      rs' := rs + [r.value];
    }
  }

  /** One more element gathered. */
  lemma GatherStep<T>(xs: seq<T>, i: nat, f: T -> Option<ShippingInfo>)
    requires i < |xs|
    ensures Gather(xs[..i + 1], f) == Gather(xs[..i], f) + Maybe(Passing(f(xs[i])))
  {
    assert xs[..i + 1][..i] == xs[..i];
  }

  /** Gathering is done element by element in document order: the records of a
      concatenation are the records of the first part followed by those of the second. */
  lemma {:induction false} GatherAppend<T>(xs: seq<T>, ys: seq<T>, f: T -> Option<ShippingInfo>)
    ensures Gather(xs + ys, f) == Gather(xs, f) + Gather(ys, f)
    decreases |ys|
  {
    if ys == [] {
      assert xs + ys == xs;
    } else {
      var init := ys[..|ys| - 1];
      GatherAppend(xs, init, f);
      InitOfConcat(xs, ys);
      GatherLast(xs + ys, f);
      GatherLast(ys, f);
      ConcatAssoc(Gather(xs, f), Gather(init, f), Maybe(Passing(f(ys[|ys| - 1]))));
    }
  }

  lemma GatherLast<T>(xs: seq<T>, f: T -> Option<ShippingInfo>)
    requires xs != []
    ensures Gather(xs, f) == Gather(xs[..|xs| - 1], f) + Maybe(Passing(f(xs[|xs| - 1])))
  {
  }

  /** Every record gathered is one that `f` fills in for some element, and it passed the gate. */
  lemma {:induction false} GatherFrom<T>(xs: seq<T>, f: T -> Option<ShippingInfo>)
    ensures forall r :: r in Gather(xs, f) ==> Complete(r) && exists k :: 0 <= k < |xs| && f(xs[k]) == Some(r)
  {
    if xs != [] {
      var init := xs[..|xs| - 1];
      GatherFrom(init, f);
      forall r | r in Gather(xs, f) ensures Complete(r) && exists k :: 0 <= k < |xs| && f(xs[k]) == Some(r) {
        if r in Gather(init, f) {
          var k :| 0 <= k < |init| && f(init[k]) == Some(r);
          assert xs[k] == init[k];
        } else {
          assert f(xs[|xs| - 1]) == Some(r);
        }
      }
    }
  }

  method GatherSpans(spans: seq<BuyerSpan>) returns (rs: seq<ShippingInfo>)
    ensures rs == Gather(spans, SpanRecord)
  {
    rs := [];
    var i := 0;
    while i < |spans|
      invariant i <= |spans|
      invariant rs == Gather(spans[..i], SpanRecord)
    {
      var r := SpanRecordOf(spans[i]);
      rs := AppendIfComplete(rs, r);
      GatherStep(spans, i, SpanRecord);
      i := i + 1;
    }
    assert spans[..i] == spans;
  }

  /** A record of strategy 1 or 2 is complete; its name and street are the first two address
      texts, and the city/state/ZIP match came from the third text onwards, so at least three
      texts were kept. */
  lemma FilledShape(texts: seq<string>, orderId: string)
    requires Complete(FillFromTexts(texts, orderId))
    ensures var r := FillFromTexts(texts, orderId);
      && |texts| >= 3 && r.toName == texts[0] && r.street1To == texts[1]
      && IsStateCode(r.stateTo) && IsZip(r.zipTo) && IsStripped(r.cityTo)
      && r.orderId == Some(orderId)
      && r.phoneTo == "" && r.companyTo == "" && r.street2To == ""
  {
    var cszText := if |texts| > 2 then Join(" ", texts[2..]) else "";
    CszFieldsShape(cszText);
  }

  // ---------------------------------------------------------------------------------
  // Strategy 2: table rows
  // ---------------------------------------------------------------------------------

  /** The record a row fills in, before the gate; None when it has no address div. */
  function RowRecord(row: Row): Option<ShippingInfo> {
    match row.addressDiv
    case None => None
    case Some(raws) => Some(FillFromTexts(CleanTexts(raws), LinkOrderId(row.links)))
  }

  method RowRecordOf(row: Row) returns (r: Option<ShippingInfo>)
    ensures r == RowRecord(row)
  {
    var orderId := LinkOrderId(row.links);
    r := None;
    if row.addressDiv.Some? {
      var texts := CollectTexts(row.addressDiv.value);
      var info := FillRecord(texts, orderId);
      r := Some(info);
    }
  }

  method GatherRows(rows: seq<Row>) returns (rs: seq<ShippingInfo>)
    ensures rs == Gather(rows, RowRecord)
  {
    rs := [];
    var i := 0;
    while i < |rows|
      invariant i <= |rows|
      invariant rs == Gather(rows[..i], RowRecord)
    {
      var r := RowRecordOf(rows[i]);
      rs := AppendIfComplete(rs, r);
      GatherStep(rows, i, RowRecord);
      i := i + 1;
    }
    assert rows[..i] == rows;
  }

  // ---------------------------------------------------------------------------------
  // Strategy 3: form fields
  // ---------------------------------------------------------------------------------

  /** The fields visited after ToName and Street1To. */
  const OtherFields: seq<FormField> :=
    [CityField, StateField, ZipField, PhoneField, CompanyField, Street2Field, OrderIdField]

  /** The fields visited after ToName. */
  const AfterName: seq<FormField> := [Street1Field] + OtherFields

  const FieldOrder: seq<FormField> := [ToNameField] + AfterName

  /** A ToName value that looks like it holds address data: `\d+\s+[A-Za-z]+` or a comma. */
  predicate NameLooksCombined(v: string) {
    HasDigitsWord(v) || ',' in v
  }

  /** A Street1To value that looks like it holds a name too: `[A-Z][a-z]+\s+[A-Z][a-z]+` or a
      comma. */
  predicate StreetLooksCombined(v: string) {
    HasTwoCapWords(v) || ',' in v
  }

  /** Copies the non-empty parts of a combined field into the record; the name only when
      `nameWins` or when the record has no name yet. */
  function MergeParts(info: ShippingInfo, p: Parts, nameWins: bool): ShippingInfo {
    info.(
      toName := if p.name != "" && (nameWins || info.toName == "") then p.name else info.toName,
      street1To := if p.street != "" then p.street else info.street1To,
      cityTo := if p.city != "" then p.city else info.cityTo,
      stateTo := if p.state != "" then p.state else info.stateTo,
      zipTo := if p.zip != "" then p.zip else info.zipTo)
  }

  /** `address_info[field_name] = value` */
  function SetField(info: ShippingInfo, f: FormField, v: string): ShippingInfo {
    match f
    case ToNameField => info.(toName := v)
    case Street1Field => info.(street1To := v)
    case CityField => info.(cityTo := v)
    case StateField => info.(stateTo := v)
    case ZipField => info.(zipTo := v)
    case PhoneField => info.(phoneTo := v)
    case CompanyField => info.(companyTo := v)
    case Street2Field => info.(street2To := v)
    case OrderIdField => info.(orderId := Some(v))
  }

  /** One form field's effect on the record: none when the element is missing or its value
      empty, a combined parse for a ToName or Street1To value that looks combined, otherwise
      the value itself. */
  function ApplyField(form: map<FormField, string>, info: ShippingInfo, f: FormField): ShippingInfo {
    if f !in form || form[f] == "" then info
    else
      var v := form[f];
      if f == ToNameField && NameLooksCombined(v) then MergeParts(info, CombinedParse(v), true)
      else if f == Street1Field && StreetLooksCombined(v) then MergeParts(info, CombinedParse(v), false)
      else SetField(info, f, v)
  }

  /** The record after visiting `fields` in order. */
  function FillForm(form: map<FormField, string>, info: ShippingInfo, fields: seq<FormField>): ShippingInfo
    decreases |fields|
  {
    if fields == [] then info else FillForm(form, ApplyField(form, info, fields[0]), fields[1..])
  }

  /** Strategy 3: a record when some form element exists and the filled record has a name or
      a street. */
  function FormRecords(form: map<FormField, string>): seq<ShippingInfo> {
    if form == map[] then []
    else
      var r := FillForm(form, BlankWithOrder(""), FieldOrder);
      if r.toName != "" || r.street1To != "" then [r] else []
  }

  method ReadForm(form: map<FormField, string>) returns (rs: seq<ShippingInfo>)
    ensures rs == FormRecords(form)
  {
    rs := [];
    if form != map[] {
      var info := BlankWithOrder("");
      var i := 0;
      while i < |FieldOrder|
        invariant i <= |FieldOrder|
        invariant FillForm(form, info, FieldOrder[i..]) == FillForm(form, BlankWithOrder(""), FieldOrder)
      {
        var f := FieldOrder[i];
        ghost var before := info;
        if f in form && form[f] != "" {
          var v := form[f];
          if f == ToNameField && NameLooksCombined(v) {
            var p := ParseCombinedField(v);
            info := MergeParts(info, p, true);
          } else if f == Street1Field && StreetLooksCombined(v) {
            var p := ParseCombinedField(v);
            info := MergeParts(info, p, false);
          } else {
            info := SetField(info, f, v);
          }
        }
        assert info == ApplyField(form, before, f);
        assert FieldOrder[i..] == [f] + FieldOrder[i + 1..];
        FillFormCons(form, before, f, FieldOrder[i + 1..]);
        i := i + 1;
      }
      if info.toName != "" || info.street1To != "" {
        rs := [info];
      }
    }
  }

  /** A combined field only ever adds information: a non-empty field stays non-empty, each of
      the five fields is the parsed part or what it was, phone, company, second street line
      and order id are untouched, and a name already present survives a Street1To parse. */
  lemma MergeOnlyFills(info: ShippingInfo, p: Parts, nameWins: bool)
    ensures var r := MergeParts(info, p, nameWins);
      && (info.toName != "" ==> r.toName != "") && (info.street1To != "" ==> r.street1To != "")
      && (info.cityTo != "" ==> r.cityTo != "") && (info.stateTo != "" ==> r.stateTo != "")
      && (info.zipTo != "" ==> r.zipTo != "")
      && (r.toName == info.toName || r.toName == p.name)
      && (r.street1To == info.street1To || r.street1To == p.street)
      && (r.cityTo == info.cityTo || r.cityTo == p.city)
      && (r.stateTo == info.stateTo || r.stateTo == p.state)
      && (r.zipTo == info.zipTo || r.zipTo == p.zip)
      && r.phoneTo == info.phoneTo && r.companyTo == info.companyTo
      && r.street2To == info.street2To && r.orderId == info.orderId
      && (!nameWins && info.toName != "" ==> r.toName == info.toName)
  {
  }

  /** Fields other than ToName never take a name away. */
  lemma {:induction false} FillFormKeepsName(form: map<FormField, string>, info: ShippingInfo, fields: seq<FormField>)
    requires ToNameField !in fields
    requires info.toName != ""
    ensures FillForm(form, info, fields).toName == info.toName
    decreases |fields|
  {
    if fields != [] {
      FillFormKeepsName(form, ApplyField(form, info, fields[0]), fields[1..]);
    }
  }

  /** Fields after Street1To in the visiting order never touch the street. */
  lemma {:induction false} FillFormKeepsStreet(form: map<FormField, string>, info: ShippingInfo, fields: seq<FormField>)
    requires ToNameField !in fields && Street1Field !in fields
    ensures FillForm(form, info, fields).street1To == info.street1To
    decreases |fields|
  {
    if fields != [] {
      FillFormKeepsStreet(form, ApplyField(form, info, fields[0]), fields[1..]);
    }
  }

  /** Name and street come first in the visiting order and are not visited again. */
  lemma FieldOrderHeads()
    ensures ToNameField !in AfterName
    ensures ToNameField !in OtherFields && Street1Field !in OtherFields
  {
    forall i | 0 <= i < |OtherFields| ensures OtherFields[i] != ToNameField && OtherFields[i] != Street1Field {
    }
    assert AfterName[1..] == OtherFields;
  }

  lemma FillFormCons(form: map<FormField, string>, info: ShippingInfo, f: FormField, rest: seq<FormField>)
    ensures FillForm(form, info, [f] + rest) == FillForm(form, ApplyField(form, info, f), rest)
  {
    assert ([f] + rest)[1..] == rest;
  }

  /** A plain, non-empty ToName value is the name of the one record strategy 3 yields. */
  lemma PlainNameKept(form: map<FormField, string>)
    requires ToNameField in form && form[ToNameField] != "" && !NameLooksCombined(form[ToNameField])
    ensures var rs := FormRecords(form);
      |rs| == 1 && rs[0].toName == form[ToNameField]
  {
    var blank := BlankWithOrder("");
    var first := ApplyField(form, blank, ToNameField);
    assert first == SetField(blank, ToNameField, form[ToNameField]);
    FillFormCons(form, blank, ToNameField, AfterName);
    FieldOrderHeads();
    FillFormKeepsName(form, first, AfterName);
  }

  /** A plain, non-empty Street1To value is the street of the one record strategy 3 yields,
      when ToName does not hold a combined value. */
  lemma PlainStreetKept(form: map<FormField, string>)
    requires Street1Field in form && form[Street1Field] != "" && !StreetLooksCombined(form[Street1Field])
    requires ToNameField !in form || form[ToNameField] == "" || !NameLooksCombined(form[ToNameField])
    ensures var rs := FormRecords(form);
      |rs| == 1 && rs[0].street1To == form[Street1Field]
  {
    var blank := BlankWithOrder("");
    var first := ApplyField(form, blank, ToNameField);
    assert first.street1To == "";
    var second := ApplyField(form, first, Street1Field);
    assert second.street1To == form[Street1Field];
    FillFormCons(form, blank, ToNameField, AfterName);
    FillFormCons(form, first, Street1Field, OtherFields);
    FieldOrderHeads();
    FillFormKeepsStreet(form, second, OtherFields);
  }

  /** Fields whose values are all empty leave the record as it is. */
  lemma {:induction false} FillFormUnchanged(form: map<FormField, string>, info: ShippingInfo, fields: seq<FormField>)
    requires forall f :: f in form ==> form[f] == ""
    ensures FillForm(form, info, fields) == info
    decreases |fields|
  {
    if fields != [] {
      FillFormUnchanged(form, info, fields[1..]);
    }
  }

  /** With no form element at all, or only empty values, strategy 3 yields nothing. */
  lemma EmptyFormNothing(form: map<FormField, string>)
    requires forall f :: f in form ==> form[f] == ""
    ensures FormRecords(form) == []
  {
    FillFormUnchanged(form, BlankWithOrder(""), FieldOrder);
  }

  // ---------------------------------------------------------------------------------
  // Strategy 4: bare address divs
  // ---------------------------------------------------------------------------------

  const BrChars: set<char> := {'<', 'b', 'r', '>'}

  /** `s.rstrip('<br>')` as written: removes trailing characters drawn from the set
      {'<', 'b', 'r', '>'}, not the suffix "<br>". */
  function RStripChars(s: string, chars: set<char>): (r: string)
    ensures |r| <= |s| && r == s[..|r|]
    ensures r == [] || r[|r| - 1] !in chars
  {
    if s != [] && s[|s| - 1] in chars then RStripChars(s[..|s| - 1], chars) else s
  }

  predicate EndsWithBr(s: string) {
    |s| >= 4 && s[|s| - 4..] == "<br>"
  }

  /** A trailing "<br>" removed, as the span texts of the bare-div strategy need. */
  function RemoveBrSuffix(s: string): (r: string)
    ensures EndsWithBr(s) ==> s == r + "<br>"
    ensures !EndsWithBr(s) ==> r == s
  {
    if EndsWithBr(s) then s[..|s| - 4] else s
  }

  /** The stripping as written eats the end of names and streets that end in 'b' or 'r':
      "Weber" becomes "Webe", and "12 Oak Dr" becomes "12 Oak D", where the intended suffix
      removal leaves both alone. */
  lemma RStripBrEatsLetters()
    ensures RStripChars("Weber", BrChars) == "Webe"
    ensures RStripChars("12 Oak Dr", BrChars) == "12 Oak D"
    ensures RemoveBrSuffix("Weber") == "Weber"
    ensures RemoveBrSuffix("12 Oak Dr") == "12 Oak Dr"
  {
    assert "Weber"[..4] == "Webe";
    assert "12 Oak Dr"[..8] == "12 Oak D";
  }

  /** Any text ending in 'b' or 'r' loses at least its last character to the stripping as
      written. */
  lemma RStripBrShortens(s: string)
    requires s != [] && (s[|s| - 1] == 'b' || s[|s| - 1] == 'r')
    ensures |RStripChars(s, BrChars)| < |s|
  {
  }

  /** The suffix removal undoes appending "<br>", and keeps every text that does not end in
      "<br>" as it is. */
  lemma RemoveBrSuffixInverse(s: string)
    ensures RemoveBrSuffix(s + "<br>") == s
  {
    assert EndsWithBr(s + "<br>");
    assert (s + "<br>")[..|s|] == s;
  }

  /** Index of the first of the five nearest ancestors holding an order link, or None. */
  function OrderParent(parents: seq<seq<Anchor>>): (r: Option<nat>)
    ensures r.Some? ==> r.value < 5 && r.value < |parents|
    ensures r.Some? ==> FirstOrderLink(parents[r.value]) < |parents[r.value]|
    ensures r.Some? ==> forall k :: 0 <= k < r.value ==> FirstOrderLink(parents[k]) == |parents[k]|
    ensures r.None? ==> forall k :: 0 <= k < 5 && k < |parents| ==> FirstOrderLink(parents[k]) == |parents[k]|
  {
    OrderParentFrom(parents, 0)
  }

  function OrderParentFrom(parents: seq<seq<Anchor>>, i: nat): (r: Option<nat>)
    requires i <= 5
    ensures r.Some? ==> i <= r.value < 5 && r.value < |parents|
    ensures r.Some? ==> FirstOrderLink(parents[r.value]) < |parents[r.value]|
    ensures r.Some? ==> forall k :: i <= k < r.value ==> FirstOrderLink(parents[k]) == |parents[k]|
    ensures r.None? ==> forall k :: i <= k < 5 && k < |parents| ==> FirstOrderLink(parents[k]) == |parents[k]|
    decreases 5 - i
  {
    if i == 5 || i >= |parents| then None
    else if FirstOrderLink(parents[i]) < |parents[i]| then Some(i)
    else OrderParentFrom(parents, i + 1)
  }

  /** The order number in the (unstripped) text of the first order link of the nearest
      ancestor that has one, or ''. */
  function DivOrderId(parents: seq<seq<Anchor>>): string {
    match OrderParent(parents)
    case None => ""
    case Some(k) => FindOrderId(parents[k][FirstOrderLink(parents[k])].text).GetOr("")
  }

  /** The walk up from the div, at most five parents, stopping at the root. */
  method FindOrderElement(parents: seq<seq<Anchor>>) returns (id: string)
    ensures id == DivOrderId(parents)
  {
    var element: Option<Anchor> := None;
    var depth := 0;
    while depth < 5
      invariant depth <= 5 && element.None?
      invariant forall k :: 0 <= k < depth ==> k < |parents| && FirstOrderLink(parents[k]) == |parents[k]|
    {
      if depth >= |parents| {
        break;
      }
      var links := parents[depth];
      var j := FirstOrderLink(links);
      if j < |links| {
        element := Some(links[j]);
        break;
      }
      depth := depth + 1;
    }
    id := "";
    if element.Some? {
      id := FindOrderId(element.value.text).GetOr("");
    }
  }

  /** The record a bare address div gives (before the gate). */
  function DivRecord(div: AddressDiv): ShippingInfo {
    var csz := CszFields(div.text);
    var spans := div.plainSpans;
    ShippingInfo(
      if |spans| >= 1 then RemoveBrSuffix(Strip(spans[0])) else "", "",
      if |spans| >= 2 then RemoveBrSuffix(Strip(spans[1])) else "",
      "", "", csz.0, csz.2, csz.1, Some(DivOrderId(div.parents)))
  }

  function DivRecordOpt(div: AddressDiv): Option<ShippingInfo> {
    Some(DivRecord(div))
  }

  method DivRecordOf(div: AddressDiv) returns (info: ShippingInfo)
    ensures info == DivRecord(div)
  {
    info := BlankWithOrder("");
    var spans := div.plainSpans;
    if |spans| >= 1 {
      info := info.(toName := RemoveBrSuffix(Strip(spans[0])));
    }
    if |spans| >= 2 {
      info := info.(street1To := RemoveBrSuffix(Strip(spans[1])));
    }
    var m := CszSearch(div.text);
    if m.Some? {
      info := info.(cityTo := Strip(CszCity(div.text, m.value)),
                    stateTo := Strip(CszState(div.text, m.value)),
                    zipTo := Strip(CszZip(div.text, m.value)));
    }
    var id := FindOrderElement(div.parents);
    info := info.(orderId := Some(id));
  }

  method GatherDivs(divs: seq<AddressDiv>) returns (rs: seq<ShippingInfo>)
    ensures rs == Gather(divs, DivRecordOpt)
  {
    rs := [];
    var i := 0;
    while i < |divs|
      invariant i <= |divs|
      invariant rs == Gather(divs[..i], DivRecordOpt)
    {
      var info := DivRecordOf(divs[i]);
      rs := AppendIfComplete(rs, Some(info));
      GatherStep(divs, i, DivRecordOpt);
      i := i + 1;
    }
    assert divs[..i] == divs;
  }

  /** A bare-div record names the first two unclassed spans, stripped and without a trailing
      "<br>", its order id is '' or an order number, and its city/state/ZIP come from the
      div's text. */
  lemma DivRecordShape(div: AddressDiv)
    requires Complete(DivRecord(div))
    ensures var r := DivRecord(div);
      && |div.plainSpans| >= 2
      && r.toName + (if EndsWithBr(Strip(div.plainSpans[0])) then "<br>" else "") == Strip(div.plainSpans[0])
      && IsStateCode(r.stateTo) && IsZip(r.zipTo) && ',' in div.text
      && (r.orderId.value == "" || IsOrderId(r.orderId.value))
  {
    CszFieldsShape(div.text);
  }

  // ---------------------------------------------------------------------------------
  // Strategy 5 and the cascade
  // ---------------------------------------------------------------------------------

  /** Strategy 5: the free-text record when it has a name and a street. */
  function TextRecords(text: string): seq<ShippingInfo> {
    var c := Components(text);
    if c.toName != "" && c.street1To != "" then [c] else []
  }

  /** The records of each strategy, in the order they are tried. */
  function Stages(p: Page): (st: seq<seq<ShippingInfo>>)
    ensures |st| == 5
  {
    [Gather(p.buyerSpans, SpanRecord), Gather(p.rows, RowRecord), FormRecords(p.form),
     Gather(p.addressDivs, DivRecordOpt), TextRecords(p.text)]
  }

  /** The answer of a cascade of strategies: the records of the first one that yields any. */
  function FirstStage(st: seq<seq<ShippingInfo>>): Extraction {
    if st == [] then NotFound
    else if st[0] != [] then Shape(st[0])
    else FirstStage(st[1..])
  }

  /** What `extract_shipping_info` returns. */
  function Extract(doc: Document): Extraction {
    match doc
    case Unparseable => NotFound
    case Parsed(p) => FirstStage(Stages(p))
  }

  /** The five strategies tried in turn, each consulted only when every earlier one found
      nothing; a list of one record is handed back bare. */
  method ExtractShippingInfo(doc: Document) returns (r: Extraction)
    ensures r == Extract(doc)
  {
    if doc.Unparseable? {
      return NotFound;
    }
    var p := doc.page;
    ghost var st := Stages(p);
    var rs := GatherSpans(p.buyerSpans);
    if rs != [] {
      return Shape(rs);
    }
    assert FirstStage(st) == FirstStage(st[1..]);
    rs := GatherRows(p.rows);
    if rs != [] {
      return Shape(rs);
    }
    assert FirstStage(st[1..]) == FirstStage(st[2..]);
    rs := ReadForm(p.form);
    if rs != [] {
      return Shape(rs);
    }
    assert FirstStage(st[2..]) == FirstStage(st[3..]);
    rs := GatherDivs(p.addressDivs);
    if rs != [] {
      return Shape(rs);
    }
    assert FirstStage(st[3..]) == FirstStage(st[4..]);
    var c := Components(p.text);
    if c.toName != "" && c.street1To != "" {
      return Single(c);
    }
    assert FirstStage(st[4..]) == FirstStage(st[5..]);
    return NotFound;
  }

  /** A cascade answers with exactly the records of the first strategy that yields any,
      every earlier strategy having yielded none, and with None when no strategy yields a
      record. */
  lemma {:induction false} FirstStageSpec(st: seq<seq<ShippingInfo>>)
    ensures forall k :: 0 <= k < |st| && st[k] != [] && (forall j :: 0 <= j < k ==> st[j] == []) ==>
      Records(FirstStage(st)) == st[k]
    ensures (forall j :: 0 <= j < |st| ==> st[j] == []) <==> FirstStage(st) == NotFound
  {
    if st != [] && st[0] == [] {
      FirstStageSpec(st[1..]);
      forall k | 0 < k < |st| && st[k] != [] && (forall j :: 0 <= j < k ==> st[j] == [])
        ensures Records(FirstStage(st)) == st[k]
      {
        assert st[1..][k - 1] == st[k];
        assert forall j :: 0 <= j < k - 1 ==> st[1..][j] == st[j + 1];
      }
      if FirstStage(st) == NotFound {
        forall j | 0 <= j < |st| ensures st[j] == [] {
          if j > 0 { assert st[1..][j - 1] == st[j]; }
        }
      }
    }
  }

  /** A property every strategy's records have is had by the records of the answer. */
  lemma {:induction false} FirstStageKeeps(st: seq<seq<ShippingInfo>>, P: ShippingInfo -> bool)
    requires forall k, r :: 0 <= k < |st| && r in st[k] ==> P(r)
    ensures forall r :: r in Records(FirstStage(st)) ==> P(r)
  {
    if st != [] && st[0] == [] {
      assert forall k, r :: 0 <= k < |st[1..]| && r in st[1..][k] ==> r in st[k + 1];
      FirstStageKeeps(st[1..], P);
    }
  }

  /** Strategy 3 yields a record only when it has a name or a street. */
  lemma FormGate(form: map<FormField, string>)
    ensures forall r :: r in FormRecords(form) ==> r.toName != "" || r.street1To != ""
  {
  }

  /** Strategy 5 yields a record only when it has a name and a street. */
  lemma TextGate(text: string)
    ensures forall r :: r in TextRecords(text) ==> r.toName != "" && r.street1To != ""
  {
  }

  /** The weakest gate shared by all strategies. */
  predicate HasNameOrStreet(r: ShippingInfo) {
    r.toName != "" || r.street1To != ""
  }

  /** The shared gate holds of the answer of a cascade of five strategies that each keep it. */
  lemma CascadeGate(st: seq<seq<ShippingInfo>>)
    requires |st| == 5
    requires forall r :: r in st[0] ==> Complete(r)
    requires forall r :: r in st[1] ==> Complete(r)
    requires forall r :: r in st[2] ==> HasNameOrStreet(r)
    requires forall r :: r in st[3] ==> Complete(r)
    requires forall r :: r in st[4] ==> HasNameOrStreet(r)
    ensures forall r :: r in Records(FirstStage(st)) ==> HasNameOrStreet(r)
  {
    forall k, r | 0 <= k < |st| && r in st[k] ensures HasNameOrStreet(r) {
    }
    FirstStageKeeps(st, HasNameOrStreet);
  }

  /** Every record that the span, row and bare-div strategies gather passed the gate. */
  lemma {:induction false} GatherComplete<T>(xs: seq<T>, f: T -> Option<ShippingInfo>)
    ensures forall r :: r in Gather(xs, f) ==> Complete(r)
  {
    if xs != [] {
      GatherComplete(xs[..|xs| - 1], f);
    }
  }

  /** Every record `extract_shipping_info` returns has a name or a street. */
  lemma ExtractGate(doc: Document)
    ensures forall r :: r in Records(Extract(doc)) ==> HasNameOrStreet(r)
  {
    if doc.Parsed? {
      var p := doc.page;
      var spans, rows, form := Gather(p.buyerSpans, SpanRecord), Gather(p.rows, RowRecord), FormRecords(p.form);
      var divs, text := Gather(p.addressDivs, DivRecordOpt), TextRecords(p.text);
      GatherComplete(p.buyerSpans, SpanRecord);
      GatherComplete(p.rows, RowRecord);
      GatherComplete(p.addressDivs, DivRecordOpt);
      FormGate(p.form);
      TextGate(p.text);
      CascadeGate([spans, rows, form, divs, text]);
      assert Stages(p) == [spans, rows, form, divs, text];
    }
  }
}
