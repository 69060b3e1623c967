/** The sale record: one row of the clean data set, of the staging table and
    of the production table (columns id, date, region, city, category,
    product, qty, unitprice, totalprice). */
module Records {
  import opened Wrappers

  /** A calendar date (the `date` column). */
  datatype Date = Date(year: int, month: int, day: int)

  /** A parsed date-time, before the time part is dropped. */
  datatype Timestamp = Timestamp(date: Date, secondOfDay: nat)

  /** One sale row; `None` is NULL. Prices are exact reals: the rounding of
      `numeric(18,2)` is not modelled. */
  datatype SaleRecord = SaleRecord(
    id: string,
    date: Option<Date>,
    region: string,
    city: string,
    category: string,
    product: string,
    qty: Option<int>,
    unitPrice: Option<real>,
    totalPrice: Option<real>)

  /** A nullable numeric column that is NULL or at least zero. */
  predicate NullOrNonNegative(v: Option<real>) {
    v.None? || v.value >= 0.0
  }

  /** The non-NULL numeric values of a row: qty, unit price and total price. */
  function NumericValues(r: SaleRecord): seq<real> {
    (if r.qty.Some? then [r.qty.value as real] else [])
    + (if r.unitPrice.Some? then [r.unitPrice.value] else [])
    + (if r.totalPrice.Some? then [r.totalPrice.value] else [])
  }

  /** The members of `NumericValues`, field by field. */
  lemma InNumericValues(r: SaleRecord)
    ensures forall v :: v in NumericValues(r) <==>
              || (r.qty.Some? && v == r.qty.value as real)
              || (r.unitPrice.Some? && v == r.unitPrice.value)
              || (r.totalPrice.Some? && v == r.totalPrice.value)
  {
  }

  /** The CHECK constraints, field by field, against the list of values. */
  lemma NonNegativeValues(r: SaleRecord)
    ensures ((r.qty.None? || r.qty.value >= 0) && NullOrNonNegative(r.unitPrice) && NullOrNonNegative(r.totalPrice))
            <==> forall v :: v in NumericValues(r) ==> v >= 0.0
  {
    InNumericValues(r);
    if r.qty.Some? { assert r.qty.value as real in NumericValues(r); }
    if r.unitPrice.Some? { assert r.unitPrice.value in NumericValues(r); }
    if r.totalPrice.Some? { assert r.totalPrice.value in NumericValues(r); }
  }

  /** The three CHECK constraints of the table (chk_qty_nonneg,
      chk_unitprice_nonneg, chk_totalprice_nonneg), which are also the test of
      the validator's negativity pass: no value that is present is negative. */
  predicate NonNegative(r: SaleRecord)
    ensures NonNegative(r) <==> forall v :: v in NumericValues(r) ==> v >= 0.0
  {
    NonNegativeValues(r);
    && (r.qty.None? || r.qty.value >= 0)
    && NullOrNonNegative(r.unitPrice)
    && NullOrNonNegative(r.totalPrice)
  }

  /** The largest magnitude PostgreSQL's 32-bit `integer` holds. */
  const IntegerMin: int := -0x8000_0000
  const IntegerMax: int := 0x7FFF_FFFF

  /** `numeric(18,2)` keeps 16 digits before the point. A value is first
      rounded half away from zero to cents, so exactly the values whose
      magnitude is below 10^16 - 0.005 round to one that fits. */
  const NumericBound: real := 9999999999999999.995

  /** The value fits a `numeric(18,2)` column. */
  predicate FitsNumeric(v: Option<real>) {
    v.None? || -NumericBound < v.value < NumericBound
  }

  /** The row's values fit the column types: qty an `integer`, the prices
      `numeric(18,2)`. A row that does not fit makes the insert fail with a
      numeric overflow. */
  predicate Representable(r: SaleRecord)
    ensures Representable(r) ==>
              forall v :: v in NumericValues(r) ==> -NumericBound < v < NumericBound
  {
    InNumericValues(r);
    && (r.qty.None? || IntegerMin <= r.qty.value <= IntegerMax)
    && FitsNumeric(r.unitPrice)
    && FitsNumeric(r.totalPrice)
  }

  /** What a table of this schema can store: values that fit their column
      types and satisfy the CHECK constraints. */
  predicate Storable(r: SaleRecord) {
    Representable(r) && NonNegative(r)
  }

  /** The ids that occur in a sequence of rows. */
  function Ids(rows: seq<SaleRecord>): (ids: set<string>)
    ensures forall i :: 0 <= i < |rows| ==> rows[i].id in ids
    ensures forall k :: k in ids ==> exists i :: 0 <= i < |rows| && rows[i].id == k
  {
    set i | 0 <= i < |rows| :: rows[i].id
  }

  /** No two rows share an id: what a primary key on `id` admits. */
  predicate DistinctIds(rows: seq<SaleRecord>) {
    forall i, j :: 0 <= i < j < |rows| ==> rows[i].id != rows[j].id
  }

  /** Appending one row adds its id and nothing else. */
  lemma IdsSnoc(rows: seq<SaleRecord>, r: SaleRecord)
    ensures Ids(rows + [r]) == Ids(rows) + {r.id}
  {
    var rs := rows + [r];
    assert rs[|rows|] == r;
    forall k | k in Ids(rows) ensures k in Ids(rs) {
      var i :| 0 <= i < |rows| && rows[i].id == k;
      assert rs[i] == rows[i];
    }
    forall k | k in Ids(rs) ensures k in Ids(rows) + {r.id} {
      var i :| 0 <= i < |rs| && rs[i].id == k;
      if i < |rows| { assert rs[i] == rows[i]; }
    }
  }

  /** Prepending one row adds its id and nothing else. */
  lemma IdsCons(r: SaleRecord, rows: seq<SaleRecord>)
    ensures Ids([r] + rows) == {r.id} + Ids(rows)
  {
    var rs := [r] + rows;
    assert rs[0] == r;
    forall k | k in Ids(rows) ensures k in Ids(rs) {
      var i :| 0 <= i < |rows| && rows[i].id == k;
      assert rs[i + 1] == rows[i];
    }
    forall k | k in Ids(rs) ensures k in {r.id} + Ids(rows) {
      var i :| 0 <= i < |rs| && rs[i].id == k;
      if i > 0 { assert rs[i] == rows[i - 1]; }
    }
  }

  /** Every row of `[r] + rows` can be stored exactly when `r` and every
      row of `rows` can. */
  lemma StorableCons(r: SaleRecord, rows: seq<SaleRecord>)
    ensures (forall i :: 0 <= i < |[r] + rows| ==> Storable(([r] + rows)[i])) <==>
              Storable(r) && forall i :: 0 <= i < |rows| ==> Storable(rows[i])
  {
    var rs := [r] + rows;
    if Storable(r) && forall i :: 0 <= i < |rows| ==> Storable(rows[i]) {
      forall i | 0 <= i < |rs| ensures Storable(rs[i]) {
        if i > 0 { assert rs[i] == rows[i - 1]; }
      }
    }
    if forall i :: 0 <= i < |rs| ==> Storable(rs[i]) {
      assert rs[0] == r;
      forall i | 0 <= i < |rows| ensures Storable(rows[i]) { assert rows[i] == rs[i + 1]; }
    }
  }

  /** `[r] + rows` has distinct ids exactly when `rows` has and does not
      contain `r`'s id. */
  lemma DistinctIdsCons(r: SaleRecord, rows: seq<SaleRecord>)
    ensures DistinctIds([r] + rows) <==> r.id !in Ids(rows) && DistinctIds(rows)
  {
    var rs := [r] + rows;
    if r.id !in Ids(rows) && DistinctIds(rows) {
      forall i, j | 0 <= i < j < |rs| ensures rs[i].id != rs[j].id {
        assert rs[j] == rows[j - 1];
        if i > 0 { assert rs[i] == rows[i - 1]; }
      }
    }
    if DistinctIds(rs) {
      forall j | 0 <= j < |rows| ensures rows[j].id != r.id {
        assert rs[j + 1] == rows[j] && rs[0] == r;
      }
      forall i, j | 0 <= i < j < |rows| ensures rows[i].id != rows[j].id {
        assert rows[i] == rs[i + 1] && rows[j] == rs[j + 1];
      }
    }
  }
}
