/** The web application's session and its `generate_csv` route. Unlike the stand-alone
    application it marks the first stored address as the current one, gives that address
    the form's dimensions and writes them back into the stored record. */
module AppCsv {
  import opened Dicts
  import opened ShippingCsv

  /** The web application's sender block. */
  const AppOrigin := Origin("pbu", "5180521229", "505 E Windmill Lane", "MS", "STE #155",
                            "LAS VEGAS", "NV", "89123")

  /** The key `store_addresses` sets on every stored address. */
  const CurrentKey := "current_address"

  /** The address the form is showing: its `current_address` is exactly "true". */
  predicate IsCurrent(a: Dict) {
    CurrentKey in a && a[CurrentKey] == "true"
  }

  /** The posted list as `store_addresses` keeps it: the first address marked "true", every
      other one "false". */
  function Marked(addresses: seq<Dict>): (m: seq<Dict>)
    ensures |m| == |addresses|
  {
    seq(|addresses|, i requires 0 <= i < |addresses| =>
      addresses[i][CurrentKey := if i == 0 then "true" else "false"])
  }

  /** Exactly the first stored address is current, and every other field of every address is
      as posted. */
  lemma MarkedSpec(addresses: seq<Dict>)
    ensures var m := Marked(addresses);
      && (forall i :: 0 <= i < |m| ==> (IsCurrent(m[i]) <==> i == 0) && CurrentKey in m[i])
      && (forall i, k :: 0 <= i < |m| && k != CurrentKey ==>
            (k in m[i] <==> k in addresses[i]) && (k in addresses[i] ==> m[i][k] == addresses[i][k]))
  {
  }

  /** The dimensions of row `i`: the form's for every row when sharing dimensions over
      several addresses, the form's for the current address, otherwise the address's own,
      each falling back to the form's value. */
  function RowDims(form: Dict, batch: seq<Dict>, i: nat): Dims
    requires i < |batch|
  {
    if Checked(form, "same_dimensions") && |batch| > 1 then FormDims(form)
    else if IsCurrent(batch[i]) then FormDims(form)
    else StoredDims(batch[i], FormDims(form))
  }

  /** The dimensions of every row of the batch. */
  function BatchDims(form: Dict, batch: seq<Dict>): (dims: seq<Dims>)
    ensures |dims| == |batch|
    ensures forall i :: 0 <= i < |batch| ==> dims[i] == RowDims(form, batch, i)
  {
    seq(|batch|, i requires 0 <= i < |batch| => RowDims(form, batch, i))
  }

  /** The column lists and file name of one request. */
  function Csv(form: Dict, stored: seq<Dict>): (Columns, string) {
    var batch := Batch(form, stored);
    (Table(AppOrigin, batch, BatchDims(form, batch)),
     FileName(Checked(form, "merge_orders"), |batch|, Get(batch[0], OrderIdKey, "")))
  }

  /** An address with these dimensions stored in it. */
  function WriteBack(a: Dict, d: Dims): (r: Dict)
    ensures forall k :: k !in DimKeys ==> (k in r <==> k in a) && (k in a ==> r[k] == a[k])
    ensures forall defaults :: StoredDims(r, defaults) == d
  {
    a["Weight" := d.weight]["length" := d.length]["width" := d.width]["height" := d.height]
     ["description" := d.description]
  }

  /** The five keys that hold an address's dimensions. */
  const DimKeys: set<string> := {"Weight", "length", "width", "height", "description"}

  /** Whether a request writes the form's dimensions back into the session: it merges a
      non-empty stored list and does not share dimensions over several addresses. */
  predicate WritesBack(form: Dict, stored: seq<Dict>) {
    Checked(form, "merge_orders") && stored != [] && !SharesDims(form, stored)
  }

  /** Whether one set of dimensions is shared by several addresses. */
  predicate SharesDims(form: Dict, batch: seq<Dict>) {
    Checked(form, "same_dimensions") && |batch| > 1
  }

  /** The batch after its loop: outside shared dimensions, every current address holds the
      form's dimensions. */
  function WrittenBack(form: Dict, batch: seq<Dict>): (after: seq<Dict>)
    ensures |after| == |batch|
  {
    seq(|batch|, i requires 0 <= i < |batch| =>
      if !SharesDims(form, batch) && IsCurrent(batch[i]) then WriteBack(batch[i], FormDims(form))
      else batch[i])
  }

  /** Entry `i` of the written-back batch. */
  lemma WrittenBackAt(form: Dict, batch: seq<Dict>, i: nat)
    requires i < |batch|
    ensures WrittenBack(form, batch)[i]
      == if !SharesDims(form, batch) && IsCurrent(batch[i]) then WriteBack(batch[i], FormDims(form))
         else batch[i]
  {
  }

  /** The stored addresses after one request: only a batch taken from the session writes
      back into it. */
  function AfterGenerate(form: Dict, stored: seq<Dict>): (after: seq<Dict>)
    ensures |after| == |stored|
    ensures forall i :: 0 <= i < |stored| ==>
      after[i] == if WritesBack(form, stored) && IsCurrent(stored[i]) then WriteBack(stored[i], FormDims(form))
                  else stored[i]
  {
    if Checked(form, "merge_orders") && stored != [] then
      assert forall i :: 0 <= i < |stored| ==>
        (WrittenBack(form, stored)[i]
           == if !SharesDims(form, stored) && IsCurrent(stored[i]) then WriteBack(stored[i], FormDims(form))
              else stored[i]);
      WrittenBack(form, stored)
    else stored
  }

  /** The session's address list; a missing list reads as empty. */
  class Session {
    var allAddresses: seq<Dict>

    /** A fresh session holds no addresses. */
    constructor ()
      ensures allAddresses == []
    {
      allAddresses := [];
    }

    /** The index page drops the stored addresses. */
    method Clear()
      modifies this
      ensures allAddresses == []
    {
      allAddresses := [];
    }

    /** `store_addresses`: marks each posted address current or not, then stores the list. */
    method StoreAddresses(addresses: seq<Dict>)
      modifies this
      ensures allAddresses == Marked(addresses)
    {
      var marked := addresses;
      var i := 0;
      while i < |addresses|
        invariant 0 <= i <= |addresses| && |marked| == |addresses|
        invariant forall k :: 0 <= k < i ==> marked[k] == Marked(addresses)[k]
        invariant forall k :: i <= k < |addresses| ==> marked[k] == addresses[k]
      {
        marked := marked[i := marked[i][CurrentKey := if i == 0 then "true" else "false"]];
        i := i + 1;
      }
      allAddresses := marked;
    }

    /** `generate_csv`: one row per address of the batch and the download name; the current
        stored address gets the form's dimensions written back. */
    method GenerateCsv(form: Dict) returns (cols: Columns, filename: string)
      modifies this
      ensures (cols, filename) == Csv(form, old(allAddresses))
      ensures allAddresses == AfterGenerate(form, old(allAddresses))
    {
      var merge := Checked(form, "merge_orders");
      var fromSession := merge && allAddresses != [];
      var batch := if fromSession then allAddresses else [SingleFromForm(form)];
      var written;
      cols, written := FillColumns(form, batch);
      // The loop updates the stored records in place; here the list is replaced at the end.
      if fromSession {
        allAddresses := written;
      }
      filename := DownloadName(merge, batch);
    }
  }

  /** The loop of `generate_csv`: appends the row of every address of the batch, with the
      dimensions it picks, and writes the form's dimensions into the current address. */
  method FillColumns(form: Dict, batch: seq<Dict>) returns (cols: Columns, written: seq<Dict>)
    ensures cols == Table(AppOrigin, batch, BatchDims(form, batch))
    ensures written == WrittenBack(form, batch)
  {
    ghost var dims := BatchDims(form, batch);
    cols := EmptyColumns();
    TableEnds(AppOrigin, batch, dims);
    written := batch;
    var i := 0;
    while i < |batch|
      invariant 0 <= i <= |batch| && |written| == |batch|
      invariant cols == Table(AppOrigin, batch[..i], dims[..i])
      invariant forall k :: 0 <= k < i ==> written[k] == WrittenBack(form, batch)[k]
      invariant forall k :: i <= k < |batch| ==> written[k] == batch[k]
    {
      var address := batch[i];
      var d, current := DimsOf(form, batch, i);
      TableStep(AppOrigin, batch, dims, i, cols);
      cols := AppendRow(cols, Row(AppOrigin, address, d));
      if current {
        written := written[i := WriteBack(address, d)];
      }
      i := i + 1;
    }
  }

  /** The dimensions of row `i` as the loop of `generate_csv` picks them, and whether the
      address is the current one outside shared dimensions, the case that writes back. */
  method DimsOf(form: Dict, batch: seq<Dict>, i: nat) returns (d: Dims, current: bool)
    requires i < |batch|
    ensures d == BatchDims(form, batch)[i]
    ensures current ==> WrittenBack(form, batch)[i] == WriteBack(batch[i], d)
    ensures !current ==> WrittenBack(form, batch)[i] == batch[i]
  {
    WrittenBackAt(form, batch, i);
    var formDims := FormDims(form);
    var address := batch[i];
    current := false;
    if Checked(form, "same_dimensions") && |batch| > 1 {
      d := formDims;
    } else if CurrentKey in address && address[CurrentKey] == "true" {
      d := formDims;
      current := true;
    } else {
      d := Dims(Get(address, "Weight", formDims.weight), Get(address, "length", formDims.length),
                Get(address, "width", formDims.width), Get(address, "height", formDims.height),
                Get(address, "description", formDims.description));
    }
  }

  /** Storing a list and then merging it: the first address, the current one, takes the
      form's dimensions and every other address keeps its own, falling back to the form's,
      unless shared dimensions are asked for over several addresses. */
  lemma StoreThenMergeDims(form: Dict, addresses: seq<Dict>)
    requires Checked(form, "merge_orders") && addresses != []
    ensures var dims := BatchDims(form, Batch(form, Marked(addresses)));
      && |dims| == |addresses|
      && dims[0] == FormDims(form)
      && (forall i :: 0 < i < |addresses| ==>
            dims[i] == if Checked(form, "same_dimensions") then FormDims(form)
                       else StoredDims(addresses[i], FormDims(form)))
  {
    MarkedSpec(addresses);
    var m := Marked(addresses);
    forall i | 0 < i < |addresses|
      ensures StoredDims(m[i], FormDims(form)) == StoredDims(addresses[i], FormDims(form))
    {
      assert m[i] == addresses[i][CurrentKey := "false"];
    }
  }

  /** The write-back stores the form's dimensions in exactly the current stored addresses,
      touching no other field and no other address. */
  lemma WriteBackSpec(form: Dict, stored: seq<Dict>)
    requires WritesBack(form, stored)
    ensures var after := AfterGenerate(form, stored);
      && (forall i :: 0 <= i < |stored| && IsCurrent(stored[i]) ==>
            StoredDims(after[i], NoDefaults) == FormDims(form) && IsCurrent(after[i]))
      && (forall i :: 0 <= i < |stored| && !IsCurrent(stored[i]) ==> after[i] == stored[i])
      && (forall i, k :: 0 <= i < |stored| && k !in DimKeys ==>
            (k in after[i] <==> k in stored[i]) && (k in stored[i] ==> after[i][k] == stored[i][k]))
  {
  }

  /** Any defaults will do for reading dimensions that are all present. */
  const NoDefaults := Dims("", "", "", "", "")

  /** Without merging, the session plays no part: the file is the form's single order and
      the stored list is left as it was. */
  lemma NoMergeIgnoresSession(form: Dict, stored: seq<Dict>, other: seq<Dict>)
    requires !Checked(form, "merge_orders")
    ensures Csv(form, stored) == Csv(form, other)
    ensures AfterGenerate(form, stored) == stored
    ensures BatchDims(form, Batch(form, stored)) == [FormDims(form)]
  {
    SingleFromFormSpec(form, FormDims(form));
    assert !IsCurrent(SingleFromForm(form));
  }

  /** The write-back is never read by a later request: the current address takes the
      form's dimensions anyway, so a second request builds the same file from the updated
      list as from the list before it. */
  lemma WriteBackUnread(form: Dict, form': Dict, stored: seq<Dict>)
    ensures Csv(form', AfterGenerate(form, stored)) == Csv(form', stored)
  {
    AfterRefreshes(form, stored);
    CsvIgnoresRefresh(form', stored, AfterGenerate(form, stored));
  }

  /** Two records that agree on every key outside the dimension keys. */
  ghost predicate SameButDims(a: Dict, b: Dict) {
    forall k :: k !in DimKeys ==> (k in b <==> k in a) && (k in a ==> b[k] == a[k])
  }

  /** `after` is `stored` with new dimensions in some current addresses and nothing else
      changed. */
  ghost predicate Refreshes(after: seq<Dict>, stored: seq<Dict>) {
    && |after| == |stored|
    && (forall i :: 0 <= i < |stored| ==> SameButDims(stored[i], after[i]))
    && (forall i :: 0 <= i < |stored| && !IsCurrent(stored[i]) ==> after[i] == stored[i])
  }

  /** One request only refreshes the stored list. */
  lemma AfterRefreshes(form: Dict, stored: seq<Dict>)
    ensures Refreshes(AfterGenerate(form, stored), stored)
  {
  }

  /** A refreshed list builds the same file as the list it refreshes. */
  lemma CsvIgnoresRefresh(form: Dict, stored: seq<Dict>, after: seq<Dict>)
    requires Refreshes(after, stored)
    ensures Csv(form, after) == Csv(form, stored)
  {
    if Checked(form, "merge_orders") && stored != [] {
      assert Batch(form, after) == after && Batch(form, stored) == stored;
      forall i | 0 <= i < |stored| ensures RowDims(form, after, i) == RowDims(form, stored, i) {
        assert IsCurrent(after[i]) == IsCurrent(stored[i]) by {
          assert CurrentKey !in DimKeys;
        }
      }
      var dims := BatchDims(form, stored);
      assert BatchDims(form, after) == dims;
      forall i | 0 <= i < |stored|
        ensures Row(AppOrigin, after[i], dims[i]) == Row(AppOrigin, stored[i], dims[i])
      {
        SameRecipient(stored[i], after[i]);
      }
      assert Rows(AppOrigin, after, dims) == Rows(AppOrigin, stored, dims);
      SameRecipient(stored[0], after[0]);
      assert Get(after[0], OrderIdKey, "") == Get(stored[0], OrderIdKey, "") by {
        assert OrderIdKey !in DimKeys;
      }
    }
  }

  /** Two records that agree outside the dimension keys fill the same recipient columns. */
  lemma SameRecipient(a: Dict, b: Dict)
    requires SameButDims(a, b)
    ensures forall origin, d :: Row(origin, a, d) == Row(origin, b, d)
  {
    var keys := [OrderIdKey, ToNameKey, PhoneToKey, Street1ToKey, CompanyToKey, Street2ToKey,
                 CityToKey, ZipToKey, StateToKey];
    assert forall j :: 0 <= j < |keys| ==> keys[j] !in DimKeys;
    forall origin, d ensures Row(origin, a, d) == Row(origin, b, d) {
      forall j | 0 <= j < |keys| ensures Get(a, keys[j], "") == Get(b, keys[j], "") {
      }
    }
  }
}
