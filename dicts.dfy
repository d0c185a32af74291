/** The string-to-string dictionaries the web layer passes around: form values, session
    records and the records `parse_address_from_parts` builds. */
module Dicts {

  /** A Python `dict` whose keys and values are strings. */
  type Dict = map<string, string>

  /** `d.get(k, default)`. */
  function Get(d: Dict, k: string, default: string): (v: string)
    ensures k in d ==> v == d[k]
    ensures k !in d ==> v == default
  {
    if k in d then d[k] else default
  }

  // Record keys shared by the extractors, the forms and the CSV columns.
  const ToNameKey := "ToName"
  const PhoneToKey := "PhoneTo"
  const Street1ToKey := "Street1To"
  const CompanyToKey := "CompanyTo"
  const Street2ToKey := "Street2To"
  const CityToKey := "CityTo"
  const ZipToKey := "ZipTo"
  const StateToKey := "StateTo"
  const OrderIdKey := "order_id"
}
