/** The stand-alone application's session and its `generate_csv` route: the addresses a
    client stores, the batch a request turns into rows, and which dimensions each row gets. */
module LocalCsv {
  import opened Dicts
  import opened ShippingCsv

  /** The stand-alone application's sender block. */
  const LocalOrigin := Origin("pbu", "7025050499", "4225 Arville st", "pbu", "suite 3",
                              "Las Vegas", "NV", "89123")

  /** The dimensions a stored address carries, read with the stand-alone defaults. */
  const NoDims := Dims("", "", "", "", "misc")

  /** The form's dimensions go on every row when merging or sharing dimensions over several
      addresses; otherwise each address keeps its own. */
  function UseFormDims(form: Dict, batch: seq<Dict>): bool {
    (Checked(form, "merge_orders") || Checked(form, "same_dimensions")) && |batch| > 1
  }

  /** The dimensions of row `i`. */
  function RowDims(form: Dict, batch: seq<Dict>, i: nat): Dims
    requires i < |batch|
  {
    if UseFormDims(form, batch) then FormDims(form) else StoredDims(batch[i], NoDims)
  }

  /** The dimensions of every row of the batch. */
  function BatchDims(form: Dict, batch: seq<Dict>): (dims: seq<Dims>)
    ensures |dims| == |batch|
    ensures forall i :: 0 <= i < |batch| ==> dims[i] == RowDims(form, batch, i)
  {
    seq(|batch|, i requires 0 <= i < |batch| => RowDims(form, batch, i))
  }

  /** The loop of `generate_csv`: appends the row of every address of the batch, with the
      dimensions it picks. */
  method FillColumns(form: Dict, batch: seq<Dict>) returns (cols: Columns)
    ensures cols == Table(LocalOrigin, batch, BatchDims(form, batch))
  {
    ghost var dims := BatchDims(form, batch);
    cols := EmptyColumns();
    TableEnds(LocalOrigin, batch, dims);
    var i := 0;
    while i < |batch|
      invariant 0 <= i <= |batch|
      invariant cols == Table(LocalOrigin, batch[..i], dims[..i])
    {
      var address := batch[i];
      var d := DimsOf(form, batch, i);
      TableStep(LocalOrigin, batch, dims, i, cols);
      cols := AppendRow(cols, Row(LocalOrigin, address, d));
      i := i + 1;
    }
  }

  /** The dimensions of row `i` as the loop of `generate_csv` picks them. */
  method DimsOf(form: Dict, batch: seq<Dict>, i: nat) returns (d: Dims)
    requires i < |batch|
    ensures d == BatchDims(form, batch)[i]
  {
    var address := batch[i];
    if (Checked(form, "merge_orders") || Checked(form, "same_dimensions")) && |batch| > 1 {
      d := FormDims(form);
    } else {
      d := Dims(Get(address, "Weight", ""), Get(address, "length", ""), Get(address, "width", ""),
                Get(address, "height", ""), Get(address, "description", "misc"));
    }
  }

  /** The column lists and file name of one request. */
  function Csv(form: Dict, stored: seq<Dict>): (Columns, string) {
    var batch := Batch(form, stored);
    (Table(LocalOrigin, batch, BatchDims(form, batch)),
     FileName(Checked(form, "merge_orders"), |batch|, Get(batch[0], OrderIdKey, "")))
  }

  /** The session's address list; a missing list reads as empty, as `session.get` with a
      default of `[]` does. */
  class Session {
    var allAddresses: seq<Dict>

    /** A fresh session holds no addresses. */
    constructor ()
      ensures allAddresses == []
    {
      allAddresses := [];
    }

    /** The index page drops the stored addresses. */
    method Clear()
      modifies this
      ensures allAddresses == []
    {
      allAddresses := [];
    }

    /** `store_addresses`: the posted list replaces the stored one as it is. */
    method StoreAddresses(addresses: seq<Dict>)
      modifies this
      ensures allAddresses == addresses
    {
      allAddresses := addresses;
    }

    /** `generate_csv`: one row per address of the batch, appended column by column, and the
        download name. The session is left as it was. */
    method GenerateCsv(form: Dict) returns (cols: Columns, filename: string)
      ensures (cols, filename) == Csv(form, allAddresses)
    {
      var merge := Checked(form, "merge_orders");
      var batch := if merge && allAddresses != [] then allAddresses else [SingleFromForm(form)];
      cols := FillColumns(form, batch);
      filename := DownloadName(merge, batch);
    }
  }

  /** Without merging, or with nothing stored, the file holds exactly one row: the form's
      order id, recipient and dimensions, whether or not "same dimensions" is ticked. */
  lemma SingleOrderFromForm(form: Dict, stored: seq<Dict>)
    requires !Checked(form, "merge_orders") || stored == []
    ensures var batch := Batch(form, stored);
      && batch == [SingleFromForm(form)]
      && BatchDims(form, batch) == [FormDims(form)]
      && Csv(form, stored).1 == FileName(false, 1, Get(form, OrderIdKey, ""))
  {
    SingleFromFormSpec(form, NoDims);
  }

  /** Merging several stored addresses: one row per stored address, in order, all with the
      form's dimensions, in the merged file. */
  lemma MergedUseFormDims(form: Dict, stored: seq<Dict>)
    requires Checked(form, "merge_orders") && |stored| > 1
    ensures Batch(form, stored) == stored
    ensures BatchDims(form, stored) == seq(|stored|, i => FormDims(form))
    ensures Csv(form, stored).1 == "shipping_orders_merged.csv"
  {
  }

  /** Merging a single stored address keeps that address's own dimensions, defaulting to
      empty sizes and "misc", even when "same dimensions" is ticked. */
  lemma MergeOneKeepsStoredDims(form: Dict, address: Dict)
    requires Checked(form, "merge_orders")
    ensures BatchDims(form, Batch(form, [address])) == [StoredDims(address, NoDims)]
  {
  }

  /** A stored list round-trips into the table: after storing addresses and generating with
      merging on, entry `i` of the recipient columns is address `i`'s field. */
  method StoreThenGenerate(s: Session, addresses: seq<Dict>, form: Dict, i: nat)
      returns (cols: Columns)
    requires Checked(form, "merge_orders")
    requires i < |addresses|
    modifies s
    ensures |cols| == Width && forall j :: 0 <= j < Width ==> |cols[j]| == |addresses|
    ensures cols[9][i] == Get(addresses[i], ToNameKey, "")
    ensures cols[11][i] == Get(addresses[i], Street1ToKey, "")
  {
    s.StoreAddresses(addresses);
    var filename;
    cols, filename := s.GenerateCsv(form);
    TableCells(LocalOrigin, addresses, BatchDims(form, addresses), i);
  }
}
