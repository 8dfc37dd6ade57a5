/** The `shipments` table as the request handlers use it: an id-keyed map of
    rows with SQLite's AUTOINCREMENT counter, the INSERT, UPDATE and DELETE
    statements as methods, and the SELECT queries (listing, search, export)
    as functions of the table's contents. */
module ShipmentTable {
  import opened Wrappers
  import opened Eta
  import opened SqlLike
  import opened Shipments

  /** The largest rowid SQLite hands out, 2^63 - 1. */
  const MaxRowId: int := 0x7fff_ffff_ffff_ffff

  /** The row's `eta` is what `calculate_eta` gives for its `etd` and `destination`. */
  predicate EtaConsistent(s: Shipment) {
    CalculateEta(s.etd, s.destination) == Ok(s.eta)
  }

  /** A row built from a form carries the form's departure date and destination,
      so the arrival date computed from the form is consistent with the row. */
  lemma RecordEtaConsistent(f: ShipmentForm, eta: string)
    requires CalculateEta(f.etd, f.destination) == Ok(eta)
    ensures EtaConsistent(Record(f, eta))
  {
    assert Record(f, eta).etd == f.etd && Record(f, eta).destination == f.destination;
  }

  /** Every row of the table is consistent. */
  predicate AllConsistent(rows: map<int, Shipment>) {
    forall id {:trigger EtaConsistent(rows[id])} :: id in rows ==> EtaConsistent(rows[id])
  }

  /** Storing a consistent row keeps every row consistent. */
  lemma StoreKeepsConsistent(rows: map<int, Shipment>, id: int, s: Shipment)
    requires AllConsistent(rows) && EtaConsistent(s)
    ensures AllConsistent(rows[id := s])
  {
  }

  /** `r` is a row of the table, with the columns the table holds for its id. */
  predicate Stored(rows: map<int, Shipment>, r: Row) {
    r.id in rows && rows[r.id] == r.shipment
  }

  predicate Ascending(s: seq<Row>) {
    forall i, j :: 0 <= i < j < |s| ==> s[i].id < s[j].id
  }

  predicate Descending(s: seq<Row>) {
    forall i, j :: 0 <= i < j < |s| ==> s[i].id > s[j].id
  }

  /** The row with this id, if there is one, as a sequence of zero or one rows. */
  function Slot(rows: map<int, Shipment>, id: int): seq<Row> {
    if id in rows then [Row(id, rows[id])] else []
  }

  // ---------------------------------------------------------------------------
  // Scans

  /** The rows with ids `lo..hi` by ascending id: the order of a rowid scan,
      which is what `SELECT *` without ORDER BY returns. */
  function ScanUp(rows: map<int, Shipment>, lo: int, hi: int): (s: seq<Row>)
    ensures forall r :: r in s <==> lo <= r.id <= hi && Stored(rows, r)
    ensures Ascending(s)
    decreases hi - lo
  {
    if hi < lo then [] else Slot(rows, lo) + ScanUp(rows, lo + 1, hi)
  }

  /** The rows with ids `lo..hi` by descending id: `ORDER BY id DESC`. */
  function ScanDown(rows: map<int, Shipment>, lo: int, hi: int): (s: seq<Row>)
    ensures forall r :: r in s <==> lo <= r.id <= hi && Stored(rows, r)
    ensures Descending(s)
    decreases hi - lo
  {
    if hi < lo then [] else Slot(rows, hi) + ScanDown(rows, lo, hi - 1)
  }

  function Reverse(s: seq<Row>): (r: seq<Row>)
    ensures |r| == |s|
    ensures forall i :: 0 <= i < |s| ==> r[i] == s[|s| - 1 - i]
  {
    if s == [] then [] else [s[|s| - 1]] + Reverse(s[..|s| - 1])
  }

  lemma ReverseAppend(a: seq<Row>, b: seq<Row>)
    ensures Reverse(a + b) == Reverse(b) + Reverse(a)
  {
    var l, r := Reverse(a + b), Reverse(b) + Reverse(a);
    forall i | 0 <= i < |l| ensures l[i] == r[i] {
      if i < |b| {
        assert l[i] == (a + b)[|a| + |b| - 1 - i] == b[|b| - 1 - i];
      } else {
        assert l[i] == (a + b)[|a| + |b| - 1 - i] == a[|a| - 1 - (i - |b|)];
      }
    }
  }

  /** A scan up to `hi` is the scan up to `hi - 1` followed by the row `hi`. */
  lemma {:induction false} ScanUpLast(rows: map<int, Shipment>, lo: int, hi: int)
    requires lo <= hi
    ensures ScanUp(rows, lo, hi) == ScanUp(rows, lo, hi - 1) + Slot(rows, hi)
    decreases hi - lo
  {
    if lo < hi {
      ScanUpLast(rows, lo + 1, hi);
      assert ScanUp(rows, lo, hi - 1) == Slot(rows, lo) + ScanUp(rows, lo + 1, hi - 1);
    }
  }

  /** The listing by descending id is the rowid scan read backwards. */
  lemma {:induction false} ScanDownIsReverse(rows: map<int, Shipment>, lo: int, hi: int)
    ensures ScanDown(rows, lo, hi) == Reverse(ScanUp(rows, lo, hi))
    decreases hi - lo
  {
    if lo <= hi {
      ScanUpLast(rows, lo, hi);
      ScanDownIsReverse(rows, lo, hi - 1);
      ReverseAppend(ScanUp(rows, lo, hi - 1), Slot(rows, hi));
      assert Reverse(Slot(rows, hi)) == Slot(rows, hi);
    }
  }

  /** A scan sees only the rows in its id range. */
  lemma {:induction false} ScanFrame(a: map<int, Shipment>, b: map<int, Shipment>, lo: int, hi: int)
    requires forall id :: lo <= id <= hi ==> Slot(a, id) == Slot(b, id)
    ensures ScanUp(a, lo, hi) == ScanUp(b, lo, hi)
    decreases hi - lo
  {
    if lo <= hi {
      assert Slot(a, lo) == Slot(b, lo);
      ScanFrame(a, b, lo + 1, hi);
    }
  }

  /** Inserting a row above every existing id appends it to the rowid scan. */
  lemma InsertAppendsToScan(rows: map<int, Shipment>, id: int, s: Shipment)
    requires 1 <= id
    requires forall k :: k in rows ==> k < id
    ensures ScanUp(rows[id := s], 1, id) == ScanUp(rows, 1, id - 1) + [Row(id, s)]
  {
    ScanUpLast(rows[id := s], 1, id);
    ScanFrame(rows[id := s], rows, 1, id - 1);
  }

  // ---------------------------------------------------------------------------
  // Search

  /** `request.form.get('search_term')` is `None` when the field is missing, and
      the f-string then spells it "None". */
  function SearchTerm(term: Option<string>): string {
    match term
    case None => "None"
    case Some(t) => t
  }

  /** The WHERE clause of the search: some non-id column is LIKE `%term%`.
      The empty term matches every row. */
  function Matches(s: Shipment, term: string): (r: bool)
    ensures term == "" ==> r
  {
    EmptyTermMatchesAll(Field(s, So));
    assert So in SearchColumns;
    exists c :: c in SearchColumns && Like(ContainsPattern(term), Field(s, c))
  }

  /** The rows of `s` that the search's WHERE clause keeps, in the order of `s`. */
  function Filter(s: seq<Row>, term: string): (out: seq<Row>)
    ensures forall r :: r in out <==> r in s && Matches(r.shipment, term)
    ensures |out| <= |s|
  {
    if s == [] then []
    else (if Matches(s[0].shipment, term) then [s[0]] else []) + Filter(s[1..], term)
  }

  /** The search keeps the order of the rows it is given. */
  lemma {:induction false} FilterAscending(s: seq<Row>, term: string)
    requires Ascending(s)
    ensures Ascending(Filter(s, term))
  {
    if s != [] {
      FilterAscending(s[1..], term);
      var rest := Filter(s[1..], term);
      forall r | r in rest ensures s[0].id < r.id {
        var k :| 0 <= k < |s[1..]| && s[1..][k] == r;
        assert s[k + 1] == r;
      }
    }
  }

  /** The empty term becomes the pattern `%%`, which keeps every row. */
  lemma {:induction false} FilterEmptyTerm(s: seq<Row>)
    ensures Filter(s, "") == s
  {
    if s != [] {
      EmptyTermMatchesAll(Field(s[0].shipment, So));
      assert Matches(s[0].shipment, "");
      FilterEmptyTerm(s[1..]);
    }
  }

  /** For a term without `%` or `_`, a row matches exactly when the term occurs,
      ignoring ASCII case, in one of the fifteen non-id columns. */
  lemma MatchesPlainTerm(s: Shipment, term: string)
    requires NoWildcards(term)
    ensures Matches(s, term) <==> exists c :: c in SearchColumns && FoldedSubstring(term, Field(s, c))
  {
    forall c {
      ContainsPatternIsSubstring(term, Field(s, c));
    }
  }

  // ---------------------------------------------------------------------------
  // Export

  /** A spreadsheet cell: the integer id or a text column. */
  datatype Cell = Number(n: int) | Text(t: string)

  /** The exported sheet: the header line and one line of cells per row. */
  datatype Sheet = Sheet(header: seq<string>, body: seq<seq<Cell>>)

  /** The DataFrame's column list. */
  const ExportHeader: seq<string> := [
    "id", "so", "dn", "customer_name_and_address", "phone", "name", "destination",
    "etd", "eta", "logistic_partner",
    "booking_date", "packing", "chromascan", "weight", "volume", "delivery_status"]

  /** The header names `id` first and then each column at its place in the schema. */
  lemma HeaderNamesColumns(c: Column)
    ensures |ExportHeader| == |TableColumns| + 1
    ensures ExportHeader[0] == "id"
    ensures TableColumns[TablePosition(c)] == c
    ensures ExportHeader[TablePosition(c) + 1] == ColumnName(c)
  {
  }

  /** Reads a line of cells back as a row; `None` unless it has the id and
      fifteen texts. */
  function CellsRow(cells: seq<Cell>): Option<Row> {
    if |cells| == 16 && cells[0].Number?
       && forall j :: 1 <= j < 16 ==> cells[j].Text?
    then
      Some(Row(cells[0].n, Shipment(
        cells[1].t, cells[2].t, cells[3].t, cells[4].t, cells[5].t, cells[6].t, cells[7].t,
        cells[8].t, cells[9].t, cells[10].t, cells[11].t, cells[12].t, cells[13].t,
        cells[14].t, cells[15].t)))
    else None
  }

  /** One row as `SELECT *` gives it: the id, then the columns in schema order. */
  function RowCells(r: Row): (cells: seq<Cell>)
    ensures |cells| == |ExportHeader|
    ensures CellsRow(cells) == Some(r)
  {
    var s := r.shipment;
    [Number(r.id), Text(s.so), Text(s.dn), Text(s.customerNameAndAddress),
     Text(s.phone), Text(s.name), Text(s.destination), Text(s.etd), Text(s.eta),
     Text(s.logisticPartner), Text(s.bookingDate), Text(s.packing),
     Text(s.chromascan), Text(s.weight), Text(s.volume), Text(s.deliveryStatus)]
  }

  /** A line holds the row's id in cell 0, and its value in each column in the
      cell under that column's name in the header. */
  lemma RowCellsFollowHeader(r: Row, c: Column)
    ensures RowCells(r)[0] == Number(r.id)
    ensures RowCells(r)[TablePosition(c) + 1] == Text(Field(r.shipment, c))
  {
  }

  /** Reads the body of a sheet back as rows. */
  function BodyRows(body: seq<seq<Cell>>): Option<seq<Row>> {
    if body == [] then Some([])
    else match (CellsRow(body[0]), BodyRows(body[1..]))
      case (Some(r), Some(rs)) => Some([r] + rs)
      case _ => None
  }

  /** Reads a sheet back as rows; `None` unless it has the export header and
      every line reads as a row. */
  function SheetRows(sh: Sheet): Option<seq<Row>> {
    if sh.header == ExportHeader then BodyRows(sh.body) else None
  }

  /** The sheet pandas writes for these rows: the header, then one line per row. */
  function SheetOf(rs: seq<Row>): (sh: Sheet)
    ensures sh.header == ExportHeader && |sh.body| == |rs|
    ensures SheetRows(sh) == Some(rs)
  {
    if rs == [] then Sheet(ExportHeader, [])
    else
      var rest := SheetOf(rs[1..]);
      var sh := Sheet(ExportHeader, [RowCells(rs[0])] + rest.body);
      assert sh.body[1..] == rest.body;
      assert [rs[0]] + rs[1..] == rs;
      sh
  }

  // ---------------------------------------------------------------------------
  // The table

  datatype AddError =
    | InvalidEtd(reason: EtaError)   // calculate_eta raised before the INSERT ran
    | TableFull                      // SQLITE_FULL: AUTOINCREMENT has used the largest rowid

  class Database {
    /** The rows, by id. */
    var rows: map<int, Shipment>
    /** The table's `sqlite_sequence` entry: the largest id ever assigned. */
    var lastId: int
    /** Every id ever assigned, including those of deleted rows. */
    ghost var issued: set<int>

    ghost predicate Valid()
      reads this
    {
      && 0 <= lastId <= MaxRowId
      && rows.Keys <= issued
      && (forall id :: id in issued ==> 1 <= id <= lastId)
      && AllConsistent(rows)
    }

    /** The table as CREATE TABLE leaves it: no rows, no id assigned. */
    constructor ()
      ensures Valid()
      ensures rows == map[] && lastId == 0 && issued == {}
    {
      rows := map[];
      lastId := 0;
      issued := {};
    }

    /** `add_shipment`: compute the arrival date, then INSERT the form's fields
        with it under a fresh id. The row stored is `Record(form, eta)`, which
        is what the INSERT's column list and parameter tuple bind
        (`InsertStoresRecord`). */
    method Add(form: ShipmentForm) returns (res: Result<int, AddError>)
      requires Valid()
      modifies this
      ensures Valid()
      ensures CalculateEta(form.etd, form.destination).Err? ==>
                res == Err(InvalidEtd(CalculateEta(form.etd, form.destination).error))
      ensures CalculateEta(form.etd, form.destination).Ok? && old(lastId) == MaxRowId ==>
                res == Err(TableFull)
      ensures res.Err? ==> rows == old(rows) && lastId == old(lastId) && issued == old(issued)
      ensures res.Ok? <==> CalculateEta(form.etd, form.destination).Ok? && old(lastId) < MaxRowId
      ensures res.Ok? ==>
                && res.value == old(lastId) + 1
                && res.value !in old(issued)
                && (forall id :: id in old(issued) ==> id < res.value)
                && rows == old(rows)[res.value := Record(form, CalculateEta(form.etd, form.destination).value)]
                && lastId == res.value
                && issued == old(issued) + {res.value}
    {
      var eta := CalculateEta(form.etd, form.destination);
      if eta.Err? {
        return Err(InvalidEtd(eta.error));
      }
      if lastId == MaxRowId {
        return Err(TableFull);
      }
      var id := lastId + 1;
      var row := Record(form, eta.value);
      RecordEtaConsistent(form, eta.value);
      StoreKeepsConsistent(rows, id, row);
      rows := rows[id := row];
      lastId := id;
      issued := issued + {id};
      res := Ok(id);
    }

    /** `update_shipment`: compute the arrival date, then UPDATE every column of
        the row with this id to `Record(form, eta)`, which is what the SET list
        binds (`UpdateRewritesRecord`). When no row has the id, nothing changes
        and no error is reported. */
    method Update(id: int, form: ShipmentForm) returns (err: Option<EtaError>)
      requires Valid()
      modifies this
      ensures Valid()
      ensures err == if CalculateEta(form.etd, form.destination).Err?
                     then Some(CalculateEta(form.etd, form.destination).error) else None
      ensures rows == if err.None? && id in old(rows)
                      then old(rows)[id := Record(form, CalculateEta(form.etd, form.destination).value)]
                      else old(rows)
      ensures lastId == old(lastId) && issued == old(issued)
    {
      var eta := CalculateEta(form.etd, form.destination);
      if eta.Err? {
        return Some(eta.error);
      }
      if id in rows {
        var row := Record(form, eta.value);
        RecordEtaConsistent(form, eta.value);
        StoreKeepsConsistent(rows, id, row);
        rows := rows[id := row];
      }
      err := None;
    }

    /** `delete_shipment`: DELETE the row with this id, if there is one. The
        counter keeps its value, so the id is never handed out again. */
    method Delete(id: int)
      requires Valid()
      modifies this
      ensures Valid()
      ensures rows == old(rows) - {id}
      ensures id !in old(rows) ==> rows == old(rows)
      ensures lastId == old(lastId) && issued == old(issued)
    {
      rows := rows - {id};
    }

    /** `edit_shipment`: `SELECT * ... WHERE id=?` and `fetchone`. */
    function Get(id: int): (r: Option<Row>)
      reads this
      requires Valid()
      ensures r.None? <==> id !in rows
      ensures r.Some? ==> r.value.id == id && Stored(rows, r.value) && EtaConsistent(r.value.shipment)
    {
      if id in rows then Some(Row(id, rows[id])) else None
    }

    /** `SELECT * FROM shipments ORDER BY id DESC`, for the list pages. */
    function List(): (s: seq<Row>)
      reads this
      requires Valid()
      ensures forall r :: r in s <==> Stored(rows, r)
      ensures Descending(s)
      ensures s == Reverse(ExportRows())
    {
      ScanDownIsReverse(rows, 1, lastId);
      ScanDown(rows, 1, lastId)
    }

    /** `SELECT * FROM shipments`: the rowid scan, ascending by id. */
    function ExportRows(): (s: seq<Row>)
      reads this
      requires Valid()
      ensures forall r :: r in s <==> Stored(rows, r)
      ensures Ascending(s)
    {
      ScanUp(rows, 1, lastId)
    }

    /** `search_shipment`: the rows whose non-id columns match `%term%`, in scan order. */
    function Search(term: Option<string>): (s: seq<Row>)
      reads this
      requires Valid()
      ensures forall r :: r in s <==> Stored(rows, r) && Matches(r.shipment, SearchTerm(term))
      ensures Ascending(s)
      ensures term == Some("") ==> s == ExportRows()
    {
      FilterEmptyTerm(ExportRows());
      FilterAscending(ExportRows(), SearchTerm(term));
      Filter(ExportRows(), SearchTerm(term))
    }

    /** `export_excel`: the header and every row, ascending by id. */
    function Export(): (sh: Sheet)
      reads this
      requires Valid()
      ensures sh.header == ExportHeader
      ensures SheetRows(sh) == Some(ExportRows())
    {
      SheetOf(ExportRows())
    }
  }
}
