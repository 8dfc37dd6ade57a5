/** One row of the `shipments` table, its columns, and how the INSERT and
    UPDATE statements bind form values to those columns. */
module Shipments {

  /** The fifteen non-id columns of a row, all stored as text. */
  datatype Shipment = Shipment(
    so: string,
    dn: string,
    customerNameAndAddress: string,
    phone: string,
    name: string,
    destination: string,
    etd: string,
    eta: string,
    logisticPartner: string,
    bookingDate: string,
    packing: string,
    chromascan: string,
    weight: string,
    volume: string,
    deliveryStatus: string)

  /** The fourteen fields the add and edit forms supply; `eta` is not among them. */
  datatype ShipmentForm = ShipmentForm(
    so: string,
    dn: string,
    customerNameAndAddress: string,
    phone: string,
    name: string,
    destination: string,
    etd: string,
    logisticPartner: string,
    bookingDate: string,
    packing: string,
    chromascan: string,
    weight: string,
    volume: string,
    deliveryStatus: string)

  /** A row as `SELECT *` returns it: the id and the fifteen other columns. */
  datatype Row = Row(id: int, shipment: Shipment)

  datatype Column =
    | So | Dn | CustomerNameAndAddress | Phone | Name | Destination | Etd | Eta
    | LogisticPartner | BookingDate | Packing | Chromascan | Weight | Volume | DeliveryStatus

  /** The column's name in the schema. */
  function ColumnName(c: Column): string {
    match c
    case So => "so"
    case Dn => "dn"
    case CustomerNameAndAddress => "customer_name_and_address"
    case Phone => "phone"
    case Name => "name"
    case Destination => "destination"
    case Etd => "etd"
    case Eta => "eta"
    case LogisticPartner => "logistic_partner"
    case BookingDate => "booking_date"
    case Packing => "packing"
    case Chromascan => "chromascan"
    case Weight => "weight"
    case Volume => "volume"
    case DeliveryStatus => "delivery_status"
  }

  function Field(s: Shipment, c: Column): string {
    match c
    case So => s.so
    case Dn => s.dn
    case CustomerNameAndAddress => s.customerNameAndAddress
    case Phone => s.phone
    case Name => s.name
    case Destination => s.destination
    case Etd => s.etd
    case Eta => s.eta
    case LogisticPartner => s.logisticPartner
    case BookingDate => s.bookingDate
    case Packing => s.packing
    case Chromascan => s.chromascan
    case Weight => s.weight
    case Volume => s.volume
    case DeliveryStatus => s.deliveryStatus
  }

  /** `SET c = v` on one row: column `c` takes `v` and no other column changes. */
  function SetField(s: Shipment, c: Column, v: string): (r: Shipment)
    ensures Field(r, c) == v
    ensures forall c' :: c' != c ==> Field(r, c') == Field(s, c')
  {
    match c
    case So => s.(so := v)
    case Dn => s.(dn := v)
    case CustomerNameAndAddress => s.(customerNameAndAddress := v)
    case Phone => s.(phone := v)
    case Name => s.(name := v)
    case Destination => s.(destination := v)
    case Etd => s.(etd := v)
    case Eta => s.(eta := v)
    case LogisticPartner => s.(logisticPartner := v)
    case BookingDate => s.(bookingDate := v)
    case Packing => s.(packing := v)
    case Chromascan => s.(chromascan := v)
    case Weight => s.(weight := v)
    case Volume => s.(volume := v)
    case DeliveryStatus => s.(deliveryStatus := v)
  }

  /** Assigns `vals[i]` to `cols[i]`, left to right, as a statement's column
      list and parameter tuple do. */
  function Assign(s: Shipment, cols: seq<Column>, vals: seq<string>): (r: Shipment)
    requires |cols| == |vals|
    ensures forall c :: c !in cols ==> Field(r, c) == Field(s, c)
    decreases |cols|
  {
    if cols == [] then s else Assign(SetField(s, cols[0], vals[0]), cols[1..], vals[1..])
  }

  /** Column order of the CREATE TABLE statement, and so of `SELECT *` after `id`. */
  const TableColumns: seq<Column> := [
    So, Dn, CustomerNameAndAddress, Phone, Name, Destination, Etd, Eta,
    LogisticPartner, BookingDate, Packing, Chromascan, Weight, Volume, DeliveryStatus]

  /** The column list of the INSERT statement. */
  const InsertColumns: seq<Column> := [
    So, Dn, CustomerNameAndAddress, Phone, Name, Destination, Etd, Eta,
    LogisticPartner, BookingDate, Packing, Chromascan, Weight, Volume, DeliveryStatus]

  /** The parameter tuple of the INSERT statement: its i-th value is what the
      row described by the form holds in the i-th listed column. */
  function InsertValues(f: ShipmentForm, eta: string): (v: seq<string>)
    ensures |v| == |InsertColumns|
    ensures forall i :: 0 <= i < |v| ==> v[i] == Field(Record(f, eta), InsertColumns[i])
  {
    [f.so, f.dn, f.customerNameAndAddress, f.phone, f.name, f.destination, f.etd, eta,
     f.logisticPartner, f.bookingDate, f.packing, f.chromascan, f.weight, f.volume, f.deliveryStatus]
  }

  /** The SET list of the UPDATE statement. */
  const UpdateColumns: seq<Column> := [
    So, Dn, CustomerNameAndAddress, Phone, Name, Destination, BookingDate, Etd, Eta,
    Packing, Chromascan, Weight, Volume, LogisticPartner, DeliveryStatus]

  /** The parameter tuple of the UPDATE statement, without the trailing id: its
      i-th value is what the row described by the form holds in the i-th SET column. */
  function UpdateValues(f: ShipmentForm, eta: string): (v: seq<string>)
    ensures |v| == |UpdateColumns|
    ensures forall i :: 0 <= i < |v| ==> v[i] == Field(Record(f, eta), UpdateColumns[i])
  {
    [f.so, f.dn, f.customerNameAndAddress, f.phone, f.name, f.destination, f.bookingDate, f.etd, eta,
     f.packing, f.chromascan, f.weight, f.volume, f.logisticPartner, f.deliveryStatus]
  }

  /** The columns the search query tests with LIKE, in its WHERE order. */
  const SearchColumns: seq<Column> := [
    So, Dn, CustomerNameAndAddress, Phone, Name, Destination, Etd, Eta,
    LogisticPartner, BookingDate, Packing, Chromascan, Weight, Volume, DeliveryStatus]

  /** The row a form and an arrival date describe: each form field in the
      column of the same name, and `eta` in the `eta` column. Dropping the
      `eta` column gives the form back. */
  function Record(f: ShipmentForm, eta: string): (r: Shipment)
    ensures FormOf(r) == f && r.eta == eta
  {
    Shipment(f.so, f.dn, f.customerNameAndAddress, f.phone, f.name, f.destination, f.etd, eta,
             f.logisticPartner, f.bookingDate, f.packing, f.chromascan, f.weight, f.volume,
             f.deliveryStatus)
  }

  /** The fourteen form fields of a row: every column except `eta`. */
  function FormOf(s: Shipment): ShipmentForm {
    ShipmentForm(s.so, s.dn, s.customerNameAndAddress, s.phone, s.name, s.destination, s.etd,
                 s.logisticPartner, s.bookingDate, s.packing, s.chromascan, s.weight, s.volume,
                 s.deliveryStatus)
  }

  /** Two rows that agree on every column are equal. */
  lemma FieldsDetermineShipment(a: Shipment, b: Shipment)
    requires forall c :: Field(a, c) == Field(b, c)
    ensures a == b
  {
    assert Field(a, So) == Field(b, So) && Field(a, Dn) == Field(b, Dn);
    assert Field(a, CustomerNameAndAddress) == Field(b, CustomerNameAndAddress);
    assert Field(a, Phone) == Field(b, Phone) && Field(a, Name) == Field(b, Name);
    assert Field(a, Destination) == Field(b, Destination) && Field(a, Etd) == Field(b, Etd);
    assert Field(a, Eta) == Field(b, Eta) && Field(a, LogisticPartner) == Field(b, LogisticPartner);
    assert Field(a, BookingDate) == Field(b, BookingDate) && Field(a, Packing) == Field(b, Packing);
    assert Field(a, Chromascan) == Field(b, Chromascan) && Field(a, Weight) == Field(b, Weight);
    assert Field(a, Volume) == Field(b, Volume) && Field(a, DeliveryStatus) == Field(b, DeliveryStatus);
  }

  /** Each of the fifteen columns appears in each list, and each list has fifteen entries. */
  lemma ColumnListsCoverSchema(c: Column)
    ensures c in TableColumns && c in InsertColumns && c in UpdateColumns && c in SearchColumns
    ensures |TableColumns| == |InsertColumns| == |UpdateColumns| == |SearchColumns| == 15
  {
  }

  /** Position of a column in the CREATE TABLE (and INSERT) column list. */
  function TablePosition(c: Column): nat {
    match c
    case So => 0 case Dn => 1 case CustomerNameAndAddress => 2 case Phone => 3 case Name => 4
    case Destination => 5 case Etd => 6 case Eta => 7 case LogisticPartner => 8
    case BookingDate => 9 case Packing => 10 case Chromascan => 11 case Weight => 12
    case Volume => 13 case DeliveryStatus => 14
  }

  /** Position of a column in the UPDATE statement's SET list. */
  function UpdatePosition(c: Column): nat {
    match c
    case So => 0 case Dn => 1 case CustomerNameAndAddress => 2 case Phone => 3 case Name => 4
    case Destination => 5 case BookingDate => 6 case Etd => 7 case Eta => 8 case Packing => 9
    case Chromascan => 10 case Weight => 11 case Volume => 12 case LogisticPartner => 13
    case DeliveryStatus => 14
  }

  lemma InsertColumnsDistinct()
    ensures Distinct(InsertColumns)
  {
    forall i | 0 <= i < |InsertColumns| ensures TablePosition(InsertColumns[i]) == i {
    }
  }

  lemma SchemaColumnsDistinct()
    ensures Distinct(TableColumns) && Distinct(SearchColumns)
  {
    forall i | 0 <= i < |TableColumns| ensures TablePosition(TableColumns[i]) == i {
    }
    forall i | 0 <= i < |SearchColumns| ensures TablePosition(SearchColumns[i]) == i {
    }
  }

  lemma UpdateColumnsDistinct()
    ensures Distinct(UpdateColumns)
  {
    forall i | 0 <= i < |UpdateColumns| ensures UpdatePosition(UpdateColumns[i]) == i {
    }
  }

  /** The INSERT binds every form field to its own column and `eta` to `eta`,
      whatever the row held before. */
  lemma InsertStoresRecord(s: Shipment, f: ShipmentForm, eta: string)
    ensures Assign(s, InsertColumns, InsertValues(f, eta)) == Record(f, eta)
  {
    var vals := InsertValues(f, eta);
    InsertColumnsDistinct();
    forall c ensures c in InsertColumns {
      ColumnListsCoverSchema(c);
    }
    AssignMatching(s, InsertColumns, vals, Record(f, eta));
  }

  /** The UPDATE rewrites every column of the row: its result depends only on
      the form and the recomputed `eta`. */
  lemma UpdateRewritesRecord(s: Shipment, f: ShipmentForm, eta: string)
    ensures Assign(s, UpdateColumns, UpdateValues(f, eta)) == Record(f, eta)
  {
    var vals := UpdateValues(f, eta);
    UpdateColumnsDistinct();
    forall c ensures c in UpdateColumns {
      ColumnListsCoverSchema(c);
    }
    AssignMatching(s, UpdateColumns, vals, Record(f, eta));
  }

  /** Assigning every column, each its value in `t`, gives `t`. */
  lemma AssignMatching(s: Shipment, cols: seq<Column>, vals: seq<string>, t: Shipment)
    requires |cols| == |vals| && Distinct(cols)
    requires forall c :: c in cols
    requires forall i :: 0 <= i < |cols| ==> vals[i] == Field(t, cols[i])
    ensures Assign(s, cols, vals) == t
  {
    var r := Assign(s, cols, vals);
    AssignAll(s, cols, vals, r);
    forall c ensures Field(r, c) == Field(t, c) {
      assert c in cols;
      var i :| 0 <= i < |cols| && cols[i] == c;
    }
    FieldsDetermineShipment(r, t);
  }

  predicate Distinct(cols: seq<Column>) {
    forall i, j :: 0 <= i < j < |cols| ==> cols[i] != cols[j]
  }

  /** With distinct columns, each listed column ends with its own value. */
  lemma {:induction false} AssignAll(s: Shipment, cols: seq<Column>, vals: seq<string>, r: Shipment)
    requires |cols| == |vals| && Distinct(cols) && r == Assign(s, cols, vals)
    ensures forall i :: 0 <= i < |cols| ==> Field(r, cols[i]) == vals[i]
    decreases |cols|
  {
    if cols != [] {
      var s' := SetField(s, cols[0], vals[0]);
      assert Distinct(cols[1..]);
      AssignAll(s', cols[1..], vals[1..], r);
      assert cols[0] !in cols[1..];
      forall i | 0 <= i < |cols| ensures Field(r, cols[i]) == vals[i] {
        if i > 0 {
          assert cols[1..][i - 1] == cols[i];
        }
      }
    }
  }
}
