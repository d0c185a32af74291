/** The shipping record every extraction strategy fills in, and the shape in which
    `extract_shipping_info` hands its records back. */
module Shipping {
  import opened Text

  /** The dictionary with keys ToName, PhoneTo, Street1To, CompanyTo, Street2To, CityTo, ZipTo,
      StateTo and order_id. `orderId` is None where the dictionary has no order_id key (the
      free-text fallback builds one without it). */
  datatype ShippingInfo = ShippingInfo(
    toName: string, phoneTo: string, street1To: string, companyTo: string,
    street2To: string, cityTo: string, zipTo: string, stateTo: string,
    orderId: Option<string>)

  /** A record with every field empty and an order id. */
  function BlankWithOrder(orderId: string): (r: ShippingInfo)
    ensures r.orderId == Some(orderId)
    ensures r.toName == r.phoneTo == r.street1To == r.companyTo == r.street2To == ""
    ensures r.cityTo == r.zipTo == r.stateTo == ""
  {
    ShippingInfo("", "", "", "", "", "", "", "", Some(orderId))
  }

  /** The gate of the span, row and bare-div strategies: name, street, city, state and ZIP
      are all non-empty. */
  predicate Complete(r: ShippingInfo) {
    r.toName != "" && r.street1To != "" && r.cityTo != "" && r.stateTo != "" && r.zipTo != ""
  }

  /** What `extract_shipping_info` returns: None, one bare dictionary, or a list of two or
      more dictionaries. */
  datatype Extraction = NotFound | Single(info: ShippingInfo) | Multiple(infos: seq<ShippingInfo>)

  /** The records an extraction carries. */
  function Records(e: Extraction): seq<ShippingInfo> {
    match e
    case NotFound => []
    case Single(r) => [r]
    case Multiple(rs) => rs
  }

  /** `shipping_addresses[0] if len(shipping_addresses) == 1 else shipping_addresses`, reached
      only with a non-empty list; the empty list stands for the final `None`. Nothing is lost
      or reordered, and a list is returned only for two records or more. */
  function Shape(rs: seq<ShippingInfo>): (e: Extraction)
    ensures Records(e) == rs
    ensures e.NotFound? <==> rs == []
    ensures e.Single? <==> |rs| == 1
    ensures e.Multiple? <==> |rs| >= 2
  {
    if rs == [] then NotFound
    else if |rs| == 1 then Single(rs[0])
    else Multiple(rs)
  }

  /** A record found or nothing, as a list of zero or one records. */
  function Maybe(r: Option<ShippingInfo>): (rs: seq<ShippingInfo>)
    ensures |rs| <= 1
    ensures rs == [] <==> r.None?
  {
    match r
    case None => []
    case Some(x) => [x]
  }
}
