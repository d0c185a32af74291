/** The shipping CSV both web applications build in `generate_csv`: 26 parallel column
    lists, one entry appended to each per address, before pandas turns them into a file. */
module ShippingCsv {
  import opened Text
  import opened Dicts

  /** The sender block, `DEFAULT_SHIP_FROM`, copied into every row. */
  datatype Origin = Origin(
    fromName: string, phoneFrom: string, street1From: string, companyFrom: string,
    street2From: string, cityFrom: string, stateFrom: string, postalCodeFrom: string)

  /** Package weight, length, width, height and description of one row. */
  datatype Dims = Dims(weight: string, length: string, width: string, height: string, description: string)

  /** The column names, in the order of the `csv_data` dictionary. */
  const Header: seq<string> := [
    "No", "FromName", "PhoneFrom", "Street1From", "CompanyFrom", "Street2From", "CityFrom",
    "StateFrom", "PostalCodeFrom", "ToName", "PhoneTo", "Street1To", "CompanyTo", "Street2To",
    "CityTo", "ZipTo", "StateTo", "Weight", "length", "width", "height", "description",
    "Ref01", "Ref02", "optional_file_name", "optional_amazon_order_id"]

  /** The number of columns. */
  const Width := 26

  /** The header names one column each. */
  lemma HeaderWidth()
    ensures |Header| == Width
  {
  }

  /** The form's dimensions, read once per request: empty when absent, "misc" for a missing
      description. */
  function FormDims(form: Dict): (d: Dims)
    ensures d.description == "" ==> "description" in form
  {
    Dims(Get(form, "Weight", ""), Get(form, "length", ""), Get(form, "width", ""),
         Get(form, "height", ""), Get(form, "description", "misc"))
  }

  /** Columns 9 to 16 carry the names of the record keys of the recipient. */
  lemma RecipientHeader()
    ensures && Header[9] == ToNameKey && Header[10] == PhoneToKey && Header[11] == Street1ToKey
            && Header[12] == CompanyToKey && Header[13] == Street2ToKey && Header[14] == CityToKey
            && Header[15] == ZipToKey && Header[16] == StateToKey
  {
  }

  /** Value `j` appended for one address, in header order. */
  function Cell(origin: Origin, address: Dict, dims: Dims, j: nat): string {
    if j == 0 then Get(address, OrderIdKey, "")
    else if j == 1 then origin.fromName
    else if j == 2 then origin.phoneFrom
    else if j == 3 then origin.street1From
    else if j == 4 then origin.companyFrom
    else if j == 5 then origin.street2From
    else if j == 6 then origin.cityFrom
    else if j == 7 then origin.stateFrom
    else if j == 8 then origin.postalCodeFrom
    else if j == 9 then Get(address, ToNameKey, "")
    else if j == 10 then Get(address, PhoneToKey, "")
    else if j == 11 then Get(address, Street1ToKey, "")
    else if j == 12 then Get(address, CompanyToKey, "")
    else if j == 13 then Get(address, Street2ToKey, "")
    else if j == 14 then Get(address, CityToKey, "")
    else if j == 15 then Get(address, ZipToKey, "")
    else if j == 16 then Get(address, StateToKey, "")
    else if j == 17 then dims.weight
    else if j == 18 then dims.length
    else if j == 19 then dims.width
    else if j == 20 then dims.height
    else if j == 21 then dims.description
    else ""
  }

  /** The values appended for one address, one per column. */
  function Row(origin: Origin, address: Dict, dims: Dims): (row: seq<string>)
    ensures |row| == Width
  {
    seq(Width, j requires 0 <= j => Cell(origin, address, dims, j))
  }

  /** "No" holds the address's order id, or is empty, and columns 1 to 8 the sender block. */
  lemma RowSender(origin: Origin, address: Dict, dims: Dims)
    ensures var row := Row(origin, address, dims);
      && row[0] == Get(address, OrderIdKey, "")
      && row[1] == origin.fromName && row[2] == origin.phoneFrom
      && row[3] == origin.street1From && row[4] == origin.companyFrom
      && row[5] == origin.street2From && row[6] == origin.cityFrom
      && row[7] == origin.stateFrom && row[8] == origin.postalCodeFrom
  {
  }

  /** Each recipient column holds the address's value under the column's own name, or is
      empty when the address lacks it. */
  lemma RowRecipient(origin: Origin, address: Dict, dims: Dims)
    ensures var row := Row(origin, address, dims);
      forall j :: 9 <= j < 17 ==> row[j] == Get(address, Header[j], "")
  {
    RecipientHeader();
    var row := Row(origin, address, dims);
    assert && row[9] == Get(address, ToNameKey, "") && row[10] == Get(address, PhoneToKey, "")
           && row[11] == Get(address, Street1ToKey, "") && row[12] == Get(address, CompanyToKey, "")
           && row[13] == Get(address, Street2ToKey, "") && row[14] == Get(address, CityToKey, "")
           && row[15] == Get(address, ZipToKey, "") && row[16] == Get(address, StateToKey, "");
  }

  /** Columns 17 to 21 hold the package dimensions given for the row, and the last four
      columns are always empty. */
  lemma RowPackage(origin: Origin, address: Dict, dims: Dims)
    ensures var row := Row(origin, address, dims);
      && Header[17..22] == ["Weight", "length", "width", "height", "description"]
      && row[17] == dims.weight && row[18] == dims.length && row[19] == dims.width
      && row[20] == dims.height && row[21] == dims.description
      && row[22] == "" && row[23] == "" && row[24] == "" && row[25] == ""
  {
  }

  /** `csv_data`: one list per column, in header order. */
  type Columns = seq<seq<string>>

  /** Every column list empty. */
  function EmptyColumns(): (cols: Columns)
    ensures |cols| == Width
    ensures forall j :: 0 <= j < |cols| ==> cols[j] == []
  {
    seq(Width, j => [])
  }

  /** Appends one value to every column list. */
  function AppendRow(cols: Columns, row: seq<string>): (r: Columns)
    requires |row| == |cols|
    ensures |r| == |cols|
    ensures forall j :: 0 <= j < |r| ==> r[j] == cols[j] + [row[j]]
  {
    seq(|cols|, j requires 0 <= j < |cols| => cols[j] + [row[j]])
  }

  /** The column lists after appending `rows` one after another to empty lists. */
  function Tabulate(rows: seq<seq<string>>): (cols: Columns)
    requires forall i :: 0 <= i < |rows| ==> |rows[i]| == Width
    ensures |cols| == Width
    ensures forall j :: 0 <= j < |cols| ==> |cols[j]| == |rows|
  {
    if rows == [] then EmptyColumns()
    else AppendRow(Tabulate(rows[..|rows| - 1]), Last(rows))
  }

  /** The column lists are the rows transposed: every column holds exactly one entry per
      row, and entry `i` of column `j` is value `j` of row `i`. */
  lemma {:induction false} TabulateSpec(rows: seq<seq<string>>)
    requires forall i :: 0 <= i < |rows| ==> |rows[i]| == Width
    ensures forall i, j :: 0 <= i < |rows| && 0 <= j < Width ==> Tabulate(rows)[j][i] == rows[i][j]
  {
    if rows != [] {
      var init := rows[..|rows| - 1];
      TabulateSpec(init);
      var cols := Tabulate(rows);
      forall i, j | 0 <= i < |rows| && 0 <= j < Width ensures cols[j][i] == rows[i][j] {
        assert cols[j] == Tabulate(init)[j] + [Last(rows)[j]];
        if i < |init| {
          assert rows[i] == init[i];
        }
      }
    }
  }

  /** The row of every address, with that address's dimensions. */
  function Rows(origin: Origin, addresses: seq<Dict>, dims: seq<Dims>): (rows: seq<seq<string>>)
    requires |dims| == |addresses|
    ensures |rows| == |addresses|
    ensures forall i :: 0 <= i < |rows| ==> rows[i] == Row(origin, addresses[i], dims[i])
  {
    seq(|addresses|, i requires 0 <= i < |addresses| => Row(origin, addresses[i], dims[i]))
  }

  /** The table for these addresses, each with its own dimensions. */
  function Table(origin: Origin, addresses: seq<Dict>, dims: seq<Dims>): (cols: Columns)
    requires |dims| == |addresses|
    ensures |cols| == Width
  {
    Tabulate(Rows(origin, addresses, dims))
  }

  /** No address, no entries; the prefixes of the whole batch give the whole table. */
  lemma TableEnds(origin: Origin, addresses: seq<Dict>, dims: seq<Dims>)
    requires |dims| == |addresses|
    ensures Table(origin, addresses[..0], dims[..0]) == EmptyColumns()
    ensures Table(origin, addresses[..|addresses|], dims[..|addresses|]) == Table(origin, addresses, dims)
  {
    assert addresses[..0] == [] && dims[..0] == [];
    assert Rows(origin, [], []) == [];
    assert addresses[..|addresses|] == addresses && dims[..|addresses|] == dims;
  }

  /** Entry `i` of every column is value `j` of the row of address `i`, built with that
      address's dimensions. */
  lemma TableCells(origin: Origin, addresses: seq<Dict>, dims: seq<Dims>, i: nat)
    requires |dims| == |addresses|
    requires i < |addresses|
    ensures var cols := Table(origin, addresses, dims);
      forall j :: 0 <= j < Width ==> |cols[j]| == |addresses| && cols[j][i] == Row(origin, addresses[i], dims[i])[j]
  {
    TabulateSpec(Rows(origin, addresses, dims));
  }

  /** Appending the row of one more address extends the table by that row. */
  lemma TableStep(origin: Origin, addresses: seq<Dict>, dims: seq<Dims>, i: nat, cols: Columns)
    requires |dims| == |addresses|
    requires i < |addresses|
    requires cols == Table(origin, addresses[..i], dims[..i])
    ensures AppendRow(cols, Row(origin, addresses[i], dims[i]))
      == Table(origin, addresses[..i + 1], dims[..i + 1])
  {
    var rows := Rows(origin, addresses[..i + 1], dims[..i + 1]);
    assert rows[..i] == Rows(origin, addresses[..i], dims[..i]);
    assert Last(rows) == Row(origin, addresses[i], dims[i]);
  }

  /** The download name: one merged file for several merged orders, otherwise a file named
      after the first order's id, or a plain name when that id is empty. */
  function FileName(merge: bool, count: nat, firstOrderId: string): (name: string)
  {
    if merge && count > 1 then "shipping_orders_merged.csv"
    else if firstOrderId != "" then "shipping_order_" + firstOrderId + ".csv"
    else "shipping_order.csv"
  }

  /** The name `generate_csv` picks for a batch. */
  method DownloadName(merge: bool, batch: seq<Dict>) returns (filename: string)
    requires batch != []
    ensures filename == FileName(merge, |batch|, Get(batch[0], OrderIdKey, ""))
  {
    if merge && |batch| > 1 {
      filename := "shipping_orders_merged.csv";
    } else {
      var orderId := Get(batch[0], OrderIdKey, "");
      filename := if orderId != "" then "shipping_order_" + orderId + ".csv" else "shipping_order.csv";
    }
  }

  /** The three names never collide, and the order id can be read back from a per-order
      name. */
  lemma FileNameCases(merge: bool, count: nat, firstOrderId: string)
    ensures var name := FileName(merge, count, firstOrderId);
      && (name == "shipping_orders_merged.csv" <==> merge && count > 1)
      && (name == "shipping_order.csv" <==> !(merge && count > 1) && firstOrderId == "")
      && (!(merge && count > 1) && firstOrderId != "" ==>
            |name| == |firstOrderId| + 19 && name[15..|name| - 4] == firstOrderId)
  {
    var name := FileName(merge, count, firstOrderId);
    if !(merge && count > 1) && firstOrderId != "" {
      assert name[14] == '_';
      assert "shipping_orders_merged.csv"[14] == 's';
      assert |name| > |"shipping_order.csv"|;
      assert name[15..|name| - 4] == firstOrderId;
    }
  }

  /** The keys of the record built from the form when there is nothing to merge. */
  const SingleKeys: set<string> := {
    ToNameKey, PhoneToKey, Street1ToKey, CompanyToKey, Street2ToKey, CityToKey, ZipToKey,
    StateToKey, OrderIdKey, "Weight", "length", "width", "height", "description"}

  /** The record built from the form when there is nothing to merge: the recipient fields,
      the order id and the dimensions from the form, empty when absent, "misc" for a missing
      description. */
  function SingleFromForm(form: Dict): (a: Dict)
    ensures a.Keys == SingleKeys
  {
    map k | k in SingleKeys :: Get(form, k, if k == "description" then "misc" else "")
  }

  /** The addresses one request writes: the stored ones when merging and some are stored,
      otherwise the single record built from the form. */
  function Batch(form: Dict, stored: seq<Dict>): (batch: seq<Dict>)
    ensures |batch| >= 1
  {
    if Checked(form, "merge_orders") && stored != [] then stored else [SingleFromForm(form)]
  }

  /** The dimensions stored in an address, each defaulting to the matching value of
      `defaults`. */
  function StoredDims(a: Dict, defaults: Dims): Dims {
    Dims(Get(a, "Weight", defaults.weight), Get(a, "length", defaults.length),
         Get(a, "width", defaults.width), Get(a, "height", defaults.height),
         Get(a, "description", defaults.description))
  }

  /** The record built from the form stores the form's dimensions, whatever the defaults,
      and the form's recipient fields and order id. */
  lemma SingleFromFormSpec(form: Dict, defaults: Dims)
    ensures StoredDims(SingleFromForm(form), defaults) == FormDims(form)
    ensures var a := SingleFromForm(form);
      && Get(a, OrderIdKey, "") == Get(form, OrderIdKey, "")
      && Get(a, ToNameKey, "") == Get(form, ToNameKey, "")
      && Get(a, PhoneToKey, "") == Get(form, PhoneToKey, "")
      && Get(a, Street1ToKey, "") == Get(form, Street1ToKey, "")
      && Get(a, CompanyToKey, "") == Get(form, CompanyToKey, "")
      && Get(a, Street2ToKey, "") == Get(form, Street2ToKey, "")
      && Get(a, CityToKey, "") == Get(form, CityToKey, "")
      && Get(a, ZipToKey, "") == Get(form, ZipToKey, "")
      && Get(a, StateToKey, "") == Get(form, StateToKey, "")
  {
  }

  /** A form checkbox is on when its value is exactly "on". */
  predicate Checked(form: Dict, box: string) {
    box in form && form[box] == "on"
  }
}
