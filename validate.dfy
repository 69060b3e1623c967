/** The extractor/validator `read_foodsales`: column check, coercion, the
    admission mask, the date truncation and the negativity pass. */
module Validate {
  import opened Wrappers
  import opened Text
  import opened Seqs
  import opened Records

  /** The nine required headers, in the order the columns are kept. */
  const ExpectedColumns: seq<string> :=
    ["ID", "Date", "Region", "City", "Category", "Product", "Qty", "UnitPrice", "TotalPrice"]

  /** One spreadsheet cell as the three coercions see it: `text` is its
      `astype(str)` rendering, `timestamp` the result of
      `to_datetime(errors="coerce")` and `number` the result of
      `to_numeric(errors="coerce")` (`None` where the parse fails). */
  datatype Cell = Cell(text: string, timestamp: Option<Timestamp>, number: Option<real>)

  /** A spreadsheet row, by header. */
  type Row = map<string, Cell>

  /** The sheet as read: its headers and its rows. */
  datatype Frame = Frame(columns: seq<string>, rows: seq<Row>)

  /** Every row has a cell under every header, as in a data frame. */
  predicate Rectangular(f: Frame) {
    forall i, c :: 0 <= i < |f.rows| && c in f.columns ==> c in f.rows[i]
  }

  type Sheet = f: Frame | Rectangular(f) witness Frame([], [])

  /** Why reading fails: a required header is absent, or the `Int64` cast of
      the Qty column meets a number it cannot hold exactly. */
  datatype ReadError = MissingColumns(missing: seq<string>, found: seq<string>) | QtyCastFailed

  /** The required headers that `columns` lacks, in the required order. */
  function Missing(columns: seq<string>): (m: seq<string>)
    ensures forall c :: c in m <==> c in ExpectedColumns && c !in columns
  {
    Filter(ExpectedColumns, c => c !in columns)
  }

  predicate HasExpectedColumns(sheet: Sheet) {
    forall c :: c in ExpectedColumns ==> c in sheet.columns
  }

  /** The row has a cell under each of the nine required headers. */
  predicate RowComplete(row: Row) {
    && "ID" in row && "Date" in row && "Region" in row && "City" in row
    && "Category" in row && "Product" in row && "Qty" in row
    && "UnitPrice" in row && "TotalPrice" in row
  }

  /** Once the headers are all there, so are the cells of every row. */
  lemma RowsComplete(sheet: Sheet)
    requires HasExpectedColumns(sheet)
    ensures forall i :: 0 <= i < |sheet.rows| ==> RowComplete(sheet.rows[i])
  {
    forall i | 0 <= i < |sheet.rows| ensures RowComplete(sheet.rows[i]) {
      forall c | c in ExpectedColumns ensures c in sheet.rows[i] {
        assert c in sheet.columns;
      }
      assert ExpectedColumns[0] in ExpectedColumns && ExpectedColumns[1] in ExpectedColumns;
      assert ExpectedColumns[2] in ExpectedColumns && ExpectedColumns[3] in ExpectedColumns;
      assert ExpectedColumns[4] in ExpectedColumns && ExpectedColumns[5] in ExpectedColumns;
      assert ExpectedColumns[6] in ExpectedColumns && ExpectedColumns[7] in ExpectedColumns;
      assert ExpectedColumns[8] in ExpectedColumns;
    }
  }

  /** A row after the casts, before the mask (the date still has its time). */
  datatype CoercedRow = CoercedRow(
    id: string,
    timestamp: Option<Timestamp>,
    region: string,
    city: string,
    category: string,
    product: string,
    qty: Option<int>,
    unitPrice: Option<real>,
    totalPrice: Option<real>)

  /** The range of pandas' `Int64`. */
  const Int64Min: int := -0x8000_0000_0000_0000
  const Int64Max: int := 0x7FFF_FFFF_FFFF_FFFF

  /** The `Int64` cast of Qty can be made safely: the cell is not a number
      (it became NULL) or it is a whole number within the 64-bit range. */
  predicate QtyCastable(c: Cell) {
    c.number.None? ||
    (c.number.value == c.number.value.Floor as real && Int64Min <= c.number.value.Floor <= Int64Max)
  }

  /** The row's Qty cell can be cast. */
  predicate QtyCastableIn(row: Row) {
    "Qty" in row && QtyCastable(row["Qty"])
  }

  /** `to_numeric(errors="coerce").astype("Int64")` on one castable cell. */
  function CastQty(c: Cell): (q: Option<int>)
    requires QtyCastable(c)
    ensures q.None? <==> c.number.None?
    ensures q.Some? ==> q.value as real == c.number.value && Int64Min <= q.value <= Int64Max
  {
    if c.number.None? then None else Some(c.number.value.Floor)
  }

  /** The casts of one row: ID stripped, Date parsed, the text columns
      rendered, Qty cast to an integer, the prices parsed. */
  function CoerceRow(row: Row): (r: CoercedRow)
    requires RowComplete(row) && QtyCastable(row["Qty"])
    ensures Strip(r.id) == r.id
    ensures r.qty.None? <==> row["Qty"].number.None?
    ensures r.qty.Some? ==> r.qty.value as real == row["Qty"].number.value
  {
    StripIdempotent(row["ID"].text);
    CoercedRow(
      Strip(row["ID"].text), row["Date"].timestamp,
      row["Region"].text, row["City"].text, row["Category"].text, row["Product"].text,
      CastQty(row["Qty"]), row["UnitPrice"].number, row["TotalPrice"].number)
  }

  /** The casts of all rows. The Qty cast is made on the column as a whole:
      one value with a fractional part makes it raise. */
  function CoerceAll(rows: seq<Row>): (r: Result<seq<CoercedRow>, ReadError>)
    requires forall i :: 0 <= i < |rows| ==> RowComplete(rows[i])
    ensures r.Ok? <==> forall i :: 0 <= i < |rows| ==> QtyCastableIn(rows[i])
    ensures r.Err? ==> r.error == QtyCastFailed
    ensures r.Ok? ==> |r.value| == |rows|
  {
    if forall i :: 0 <= i < |rows| ==> QtyCastableIn(rows[i]) then
      Ok(seq(|rows|, i requires 0 <= i < |rows| => CoerceRow(rows[i])))
    else
      Err(QtyCastFailed)
  }

  /** The admission mask: a non-empty (stripped) ID, a parsed date, a parsed
      total price, and region, category and product not blank after
      stripping. City is not tested. */
  predicate Admitted(r: CoercedRow)
    ensures Admitted(r) <==>
              && |r.id| > 0 && r.timestamp.Some? && r.totalPrice.Some?
              && !IsBlank(r.region) && !IsBlank(r.category) && !IsBlank(r.product)
  {
    StripEmptyIffBlank(r.region);
    StripEmptyIffBlank(r.category);
    StripEmptyIffBlank(r.product);
    && |r.id| > 0
    && r.timestamp.Some?
    && r.totalPrice.Some?
    && Strip(r.region) != ""
    && Strip(r.category) != ""
    && Strip(r.product) != ""
  }

  /** Dropping the time part of the date; the columns take their snake_case
      names, which here are the field names of `SaleRecord`. */
  function ToRecord(r: CoercedRow): (rec: SaleRecord)
    ensures rec.date.Some? <==> r.timestamp.Some?
  {
    SaleRecord(
      r.id, if r.timestamp.Some? then Some(r.timestamp.value.date) else None,
      r.region, r.city, r.category, r.product, r.qty, r.unitPrice, r.totalPrice)
  }

  /** The clean set and the size of the negativity pass's cut. */
  datatype Cleaned = Cleaned(rows: seq<SaleRecord>, removed: nat) {
    /** The warning "Filtered out N rows due to negative ..." is logged. */
    predicate Warns() { removed > 0 }
  }

  /** `read_foodsales`. */
  function ReadFoodSales(sheet: Sheet): (r: Result<Cleaned, ReadError>)
    ensures (r.Err? && r.error.MissingColumns?) <==> !HasExpectedColumns(sheet)
    ensures r.Err? && r.error.MissingColumns? ==>
              r.error.found == sheet.columns && r.error.missing == Missing(sheet.columns) != []
  {
    var missing := Missing(sheet.columns);
    if missing != [] then
      assert missing[0] in missing;
      Err(MissingColumns(missing, sheet.columns))
    else
      RowsComplete(sheet);
      var coerced :- CoerceAll(sheet.rows);
      Ok(Passes(coerced))
  }

  /** The rows the admission mask keeps, with their dates truncated. */
  function AdmittedRecords(coerced: seq<CoercedRow>): seq<SaleRecord> {
    MapSeq(ToRecord, Filter(coerced, Admitted))
  }

  /** The admission mask, the date truncation and the negativity pass. */
  function Passes(coerced: seq<CoercedRow>): (c: Cleaned)
    ensures c.removed == |AdmittedRecords(coerced)| - |c.rows|
  {
    var admitted := AdmittedRecords(coerced);
    var clean := Filter(admitted, NonNegative);
    Cleaned(clean, |admitted| - |clean|)
  }

  /** The rows coerced, when every required header is present. */
  function Coerced(sheet: Sheet): Result<seq<CoercedRow>, ReadError>
    requires HasExpectedColumns(sheet)
  {
    RowsComplete(sheet);
    CoerceAll(sheet.rows)
  }

  /** The negativity test, on a row before its date is truncated. */
  predicate RecordNonNegative(r: CoercedRow) {
    NonNegative(ToRecord(r))
  }

  /** A row the negativity pass drops. */
  predicate Negative(r: SaleRecord) {
    !NonNegative(r)
  }

  /** A row survives both passes. */
  predicate Clean(r: CoercedRow) {
    Admitted(r) && RecordNonNegative(r)
  }

  /** What a row of the clean set satisfies, stated without `Strip`: a
      non-empty ID with no surrounding whitespace, a date, a total price, and
      region, category and product that are not all whitespace. */
  predicate Admissible(rec: SaleRecord) {
    && |rec.id| > 0
    && Strip(rec.id) == rec.id
    && rec.date.Some?
    && rec.totalPrice.Some?
    && !IsBlank(rec.region)
    && !IsBlank(rec.category)
    && !IsBlank(rec.product)
  }

  /** A successful read is the passes applied to the coerced rows. */
  lemma ReadFoodSalesOk(sheet: Sheet)
    requires ReadFoodSales(sheet).Ok?
    ensures HasExpectedColumns(sheet) && Coerced(sheet).Ok?
    ensures ReadFoodSales(sheet).value == Passes(Coerced(sheet).value)
  {
  }

  /** Reading succeeds exactly when every header is present and every Qty
      cell is blank or a whole number. */
  lemma ReadSucceedsIff(sheet: Sheet)
    ensures ReadFoodSales(sheet).Ok? <==>
              HasExpectedColumns(sheet) && Coerced(sheet).Ok?
    ensures ReadFoodSales(sheet).Err? && !ReadFoodSales(sheet).error.MissingColumns? ==>
              ReadFoodSales(sheet).error == QtyCastFailed
  {

  }

  /** The clean set is exactly the records of the input rows that pass both
      passes, unaltered and in input order. */
  lemma PassesInInputOrder(coerced: seq<CoercedRow>)
    ensures var rows, idx := Passes(coerced).rows, KeptIndices(coerced, Clean);
            |rows| == |idx| &&
            forall k :: 0 <= k < |rows| ==> rows[k] == ToRecord(coerced[idx[k]])
  {
    calc {
      Passes(coerced).rows;
      Filter(MapSeq(ToRecord, Filter(coerced, Admitted)), NonNegative);
      { FilterMapSeq(ToRecord, Filter(coerced, Admitted), NonNegative, RecordNonNegative); }
      MapSeq(ToRecord, Filter(Filter(coerced, Admitted), RecordNonNegative));
      { FilterFilter(coerced, Admitted, RecordNonNegative, Clean); }
      MapSeq(ToRecord, Filter(coerced, Clean));
    }
    FilterAtKeptIndices(coerced, Clean);
  }

  /** Every row of the clean set passes the admission test and the CHECK
      constraints. */
  lemma CleanRowsValid(sheet: Sheet)
    requires ReadFoodSales(sheet).Ok?
    ensures forall i :: 0 <= i < |ReadFoodSales(sheet).value.rows| ==>
              Admissible(ReadFoodSales(sheet).value.rows[i]) && NonNegative(ReadFoodSales(sheet).value.rows[i])
  {
    ReadFoodSalesOk(sheet);
    var coerced := Coerced(sheet).value;
    var rows := Passes(coerced).rows;
    PassesInInputOrder(coerced);
    var idx := KeptIndices(coerced, Clean);
    forall i | 0 <= i < |rows| ensures Admissible(rows[i]) && NonNegative(rows[i]) {
      var c := coerced[idx[i]];
      assert Clean(c);
      assert Strip(c.id) == c.id by {
        RowsComplete(sheet);
        assert CoerceRow(sheet.rows[idx[i]]) == c;
      }
    }
  }

  /** The reported count is the number of admitted rows the negativity pass
      drops, and the warning is logged exactly when some admitted row has a
      negative qty, unit price or total price. */
  lemma RemovedCountsNegativeRows(coerced: seq<CoercedRow>)
    ensures Passes(coerced).removed == |Filter(AdmittedRecords(coerced), Negative)|
    ensures Passes(coerced).Warns() <==>
              exists c :: c in coerced && Admitted(c) && !NonNegative(ToRecord(c))
  {
    var admittedRows := Filter(coerced, Admitted);
    var admitted := AdmittedRecords(coerced);
    FilterPartition(admitted, NonNegative, Negative);
    FilterDropsNone(admitted, NonNegative);
    if exists c :: c in coerced && Admitted(c) && !NonNegative(ToRecord(c)) {
      var c :| c in coerced && Admitted(c) && !NonNegative(ToRecord(c));
      var i :| 0 <= i < |coerced| && coerced[i] == c;
      assert c in admittedRows;
      var j :| 0 <= j < |admittedRows| && admittedRows[j] == c;
      assert !NonNegative(admitted[j]);
    }
    if Passes(coerced).Warns() {
      var j :| 0 <= j < |admitted| && !NonNegative(admitted[j]);
      assert admittedRows[j] in admittedRows;
    }
  }
}
