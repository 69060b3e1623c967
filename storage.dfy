/** The PostgreSQL side: the production table keyed by `id`, the staging
    table cloned from it with `LIKE ... INCLUDING ALL`, and the statements the
    job issues against them (`ensure_schema_and_tables`, `load_stage`,
    `merge_stage_to_prod` and the final `DROP TABLE IF EXISTS`). */
module Storage {
  import opened Wrappers
  import opened Records

  /** The production table: rows by primary key. */
  type Table = map<string, SaleRecord>

  /** What the job can see of the database: the production table and the
      staging table, each possibly absent. */
  datatype Store = Store(production: Option<Table>, staging: Option<seq<SaleRecord>>)

  /** The steps of the transaction, for naming the one the backend refuses. */
  datatype Step = EnsureStep | StageStep | MergeStep | DropStep

  /** Errors raised by the database. */
  datatype StorageError =
    | UndefinedTable                // a table the statement names does not exist
    | OutOfRange(id: string)        // a value overflows its column type
    | CheckViolation(id: string)    // a row breaks one of the CHECK constraints
    | UniqueViolation(id: string)   // a row repeats a primary key
    | BackendFault(step: Step)      // connectivity, privileges and the like

  /** Every production row sits under its own id, fits the column types and
      obeys the CHECK constraints. */
  predicate KeyedTable(t: Table) {
    forall k :: k in t ==> t[k].id == k && Storable(t[k])
  }

  /** What the staging clone's primary key, column types and CHECK
      constraints admit. */
  predicate ValidStaging(rows: seq<SaleRecord>) {
    DistinctIds(rows) && forall i :: 0 <= i < |rows| ==> Storable(rows[i])
  }

  /** The constraints of both tables hold. */
  predicate Valid(s: Store) {
    && (s.production.Some? ==> KeyedTable(s.production.value))
    && (s.staging.Some? ==> ValidStaging(s.staging.value))
  }

  // ---------------------------------------------------------------------
  // ensure_schema_and_tables
  // ---------------------------------------------------------------------

  /** `CREATE TABLE IF NOT EXISTS` of the production table: an empty table if
      there was none, otherwise nothing changes. */
  function Ensured(s: Store): (r: Store)
    ensures r.production.Some? && r.staging == s.staging
    ensures s.production.Some? ==> r == s
    ensures s.production.None? ==> r.production == Some(map[])
  {
    if s.production.None? then s.(production := Some(map[])) else s
  }

  /** Ensuring twice is ensuring once. */
  lemma EnsuredIdempotent(s: Store)
    ensures Ensured(Ensured(s)) == Ensured(s)
    ensures Valid(s) ==> Valid(Ensured(s))
  {
  }

  // ---------------------------------------------------------------------
  // load_stage
  // ---------------------------------------------------------------------

  /** One multi-row `INSERT` into the staging table, row by row: each row's
      values are converted to the column types, then checked against the
      CHECK constraints, then against the primary key. */
  function InsertRows(table: seq<SaleRecord>, rows: seq<SaleRecord>): (r: Result<seq<SaleRecord>, StorageError>)
    ensures r.Ok? ==> r.value == table + rows
    ensures r.Err? ==> r.error.OutOfRange? || r.error.CheckViolation? || r.error.UniqueViolation?
    decreases |rows|
  {
    if rows == [] then Ok(table)
    else if !Representable(rows[0]) then Err(OutOfRange(rows[0].id))
    else if !NonNegative(rows[0]) then Err(CheckViolation(rows[0].id))
    else if rows[0].id in Ids(table) then Err(UniqueViolation(rows[0].id))
    else
      var r := InsertRows(table + [rows[0]], rows[1..]);
      assert r.Ok? ==> r.value == table + rows by {
        assert [rows[0]] + rows[1..] == rows;
      }
      r
  }

  /** Inserting `a + b` is inserting `a` and then `b`, errors included: the
      chunking of the load changes nothing. */
  lemma {:induction false} InsertRowsAppend(table: seq<SaleRecord>, a: seq<SaleRecord>, b: seq<SaleRecord>)
    ensures InsertRows(table, a + b) ==
              match InsertRows(table, a)
              case Err(e) => Err(e)
              case Ok(t) => InsertRows(t, b)
    decreases |a|
  {
    if a == [] {
      assert a + b == b;
    } else {
      assert (a + b)[0] == a[0];
      assert (a + b)[1..] == a[1..] + b;
      InsertRowsAppend(table + [a[0]], a[1..], b);
    }
  }

  /** The insert succeeds exactly when the new rows fit the column types,
      obey the CHECK constraints, repeat no id among themselves and repeat no
      id already in the table. */
  lemma {:induction false} InsertRowsOkIff(table: seq<SaleRecord>, rows: seq<SaleRecord>)
    ensures InsertRows(table, rows).Ok? <==>
              (forall i :: 0 <= i < |rows| ==> Storable(rows[i]))
              && DistinctIds(rows) && Ids(rows) !! Ids(table)
    decreases |rows|
  {
    if rows != [] {
      var x, rest := rows[0], rows[1..];
      assert rows == [x] + rest;
      InsertRowsOkIff(table + [x], rest);
      IdsSnoc(table, x);
      IdsCons(x, rest);
      StorableCons(x, rest);
      DistinctIdsCons(x, rest);
    }
  }

  /** `load_stage`: create the staging clone if missing (the `LIKE` needs the
      production table), empty it, and insert the rows. */
  function LoadStageSpec(s: Store, rows: seq<SaleRecord>): (r: Result<Store, StorageError>)
    ensures s.staging.None? && s.production.None? ==> r == Err(UndefinedTable)
    ensures r.Ok? ==> r.value == Store(s.production, Some(rows))
    ensures r.Err? ==> !r.error.BackendFault?
  {
    if s.staging.None? && s.production.None? then Err(UndefinedTable)
    else
      match InsertRows([], rows)
      case Err(e) => Err(e)
      case Ok(t) =>
        assert [] + rows == rows;
        Ok(Store(s.production, Some(t)))
  }

  /** After a successful load, staging holds exactly the given rows in their
      order, whatever it held before; the load fails exactly when a table is
      missing or the rows break the staging constraints. */
  lemma LoadStageResult(s: Store, rows: seq<SaleRecord>)
    ensures LoadStageSpec(s, rows).Ok? <==>
              (s.staging.Some? || s.production.Some?) && ValidStaging(rows)
    ensures LoadStageSpec(s, rows).Ok? ==>
              LoadStageSpec(s, rows).value == Store(s.production, Some(rows))
  {
    InsertRowsOkIff([], rows);
    assert Ids([]) == {};
    assert [] + rows == rows;
  }

  // ---------------------------------------------------------------------
  // merge_stage_to_prod
  // ---------------------------------------------------------------------

  /** `INSERT INTO prod SELECT ... FROM stage WHERE id IS NOT NULL ON CONFLICT
      (id) DO NOTHING`: each staged row whose id is not yet a key is inserted,
      the others are skipped; the count is the number inserted. */
  function MergeRows(prod: Table, staged: seq<SaleRecord>): (m: (Table, nat))
    ensures prod.Keys <= m.0.Keys
    ensures m.1 <= |staged|
    decreases |staged|
  {
    if staged == [] then (prod, 0)
    else
      var before := MergeRows(prod, staged[..|staged| - 1]);
      var r := staged[|staged| - 1];
      if r.id in before.0 then before else (before.0[r.id := r], before.1 + 1)
  }

  /** The merge adds exactly the staged ids to the keys. */
  lemma {:induction false} MergeRowsKeys(prod: Table, staged: seq<SaleRecord>)
    ensures MergeRows(prod, staged).0.Keys == prod.Keys + Ids(staged)
    decreases |staged|
  {
    if staged == [] {
      assert Ids(staged) == {};
    } else {
      var init, r := staged[..|staged| - 1], staged[|staged| - 1];
      MergeRowsKeys(prod, init);
      assert staged == init + [r];
      IdsSnoc(init, r);
    }
  }

  /** The merge never changes or removes an existing row. */
  lemma {:induction false} MergeRowsKeepsExisting(prod: Table, staged: seq<SaleRecord>)
    ensures forall k :: k in prod ==> k in MergeRows(prod, staged).0 && MergeRows(prod, staged).0[k] == prod[k]
    decreases |staged|
  {
    if staged != [] {
      MergeRowsKeepsExisting(prod, staged[..|staged| - 1]);
    }
  }

  /** The reported count is the number of rows the merge added. */
  lemma {:induction false} MergeRowsCount(prod: Table, staged: seq<SaleRecord>)
    ensures |MergeRows(prod, staged).0| == |prod| + MergeRows(prod, staged).1
    decreases |staged|
  {
    if staged != [] {
      var init, r := staged[..|staged| - 1], staged[|staged| - 1];
      MergeRowsCount(prod, init);
      var before := MergeRows(prod, init);
      if r.id !in before.0 {
        assert |before.0[r.id := r]| == |before.0| + 1;
      }
    }
  }

  /** With distinct staged ids (as the staging primary key ensures), each
      staged row whose id was new is stored as it was staged. */
  lemma {:induction false} MergeRowsInsertsStaged(prod: Table, staged: seq<SaleRecord>)
    requires DistinctIds(staged)
    ensures forall i :: 0 <= i < |staged| && staged[i].id !in prod ==>
              staged[i].id in MergeRows(prod, staged).0 && MergeRows(prod, staged).0[staged[i].id] == staged[i]
    decreases |staged|
  {
    if staged != [] {
      var init, r := staged[..|staged| - 1], staged[|staged| - 1];
      assert DistinctIds(init) by {
        forall i, j | 0 <= i < j < |init| ensures init[i].id != init[j].id {
          assert init[i] == staged[i] && init[j] == staged[j];
        }
      }
      MergeRowsInsertsStaged(prod, init);
      MergeRowsKeys(prod, init);
      forall i | 0 <= i < |staged| && staged[i].id !in prod
        ensures staged[i].id in MergeRows(prod, staged).0 && MergeRows(prod, staged).0[staged[i].id] == staged[i]
      {
        if i < |init| {
          assert staged[i] == init[i];
          assert r.id != init[i].id;
        } else {
          assert forall j :: 0 <= j < |init| ==> init[j].id != r.id by {
            forall j | 0 <= j < |init| ensures init[j].id != r.id { assert staged[j] == init[j]; }
          }
          assert r.id !in Ids(init);
        }
      }
    }
  }

  /** Merging rows whose ids are all present already inserts nothing. */
  lemma {:induction false} MergeRowsNothingNew(prod: Table, staged: seq<SaleRecord>)
    requires Ids(staged) <= prod.Keys
    ensures MergeRows(prod, staged) == (prod, 0)
    decreases |staged|
  {
    if staged != [] {
      var init, r := staged[..|staged| - 1], staged[|staged| - 1];
      IdsSnoc(init, r);
      assert staged == init + [r];
      MergeRowsNothingNew(prod, init);
    }
  }

  /** A second merge of the same staged rows inserts 0 rows and leaves the
      table as the first merge left it. */
  lemma MergeRowsIdempotent(prod: Table, staged: seq<SaleRecord>)
    ensures MergeRows(MergeRows(prod, staged).0, staged) == (MergeRows(prod, staged).0, 0)
  {
    MergeRowsKeys(prod, staged);
    MergeRowsNothingNew(MergeRows(prod, staged).0, staged);
  }

  /** The merge keeps the production table keyed and within its CHECK
      constraints. */
  lemma {:induction false} MergeRowsKeyed(prod: Table, staged: seq<SaleRecord>)
    requires KeyedTable(prod) && ValidStaging(staged)
    ensures KeyedTable(MergeRows(prod, staged).0)
    decreases |staged|
  {
    if staged != [] {
      var init := staged[..|staged| - 1];
      assert ValidStaging(init) by {
        forall i, j | 0 <= i < j < |init| ensures init[i].id != init[j].id {
          assert init[i] == staged[i] && init[j] == staged[j];
        }
        forall i | 0 <= i < |init| ensures Storable(init[i]) { assert init[i] == staged[i]; }
      }
      MergeRowsKeyed(prod, init);
    }
  }

  /** The merge statement against the store: both tables must exist. */
  function MergeSpec(s: Store): (r: Result<(Store, nat), StorageError>)
    ensures r.Err? <==> s.production.None? || s.staging.None?
    ensures r.Err? ==> r.error == UndefinedTable
    ensures r.Ok? ==> && r.value.0.staging == s.staging
                      && r.value.0.production.Some?
                      && s.production.value.Keys <= r.value.0.production.value.Keys
                      && r.value.1 <= |s.staging.value|
  {
    if s.production.None? || s.staging.None? then Err(UndefinedTable)
    else
      var m := MergeRows(s.production.value, s.staging.value);
      Ok((Store(Some(m.0), s.staging), m.1))
  }

  /** `DROP TABLE IF EXISTS` of the staging table. */
  function Dropped(s: Store): (r: Store)
    ensures r.staging.None? && r.production == s.production
  {
    s.(staging := None)
  }

  // ---------------------------------------------------------------------
  // The database connection
  // ---------------------------------------------------------------------

  /** The database, or a transaction's private view of it. */
  class Database {
    var production: Option<Table>
    var staging: Option<seq<SaleRecord>>

    function State(): Store
      reads this
    {
      Store(production, staging)
    }

    constructor (s: Store)
      ensures State() == s
    {
      production := s.production;
      staging := s.staging;
    }

    /** `eng.begin()`: a transaction that sees the current state and whose
        writes stay private until `Commit`. */
    method Begin() returns (tx: Database)
      ensures fresh(tx) && tx.State() == State()
    {
      tx := new Database(State());
    }

    /** Leaving the `with` block normally: the transaction's writes become the
        database's state. */
    method Commit(tx: Database)
      requires tx != this
      modifies this
      ensures State() == tx.State()
    {
      production := tx.production;
      staging := tx.staging;
    }

    /** `ensure_schema_and_tables`. */
    method EnsureSchemaAndTables()
      modifies this
      ensures State() == Ensured(old(State()))
    {
      if production.None? {
        production := Some(map[]);
      }
    }

    /** One multi-row `INSERT` of `chunk` into the staging table; a failing
        statement changes nothing. */
    method InsertChunk(chunk: seq<SaleRecord>) returns (res: Outcome<StorageError>)
      requires staging.Some?
      modifies this
      ensures production == old(production)
      ensures InsertRows(old(staging.value), chunk).Ok? ==>
                res.Pass? && staging == Some(InsertRows(old(staging.value), chunk).value)
      ensures InsertRows(old(staging.value), chunk).Err? ==>
                res == Fail(InsertRows(old(staging.value), chunk).error) && staging == old(staging)
    {
      var inserted := InsertRows(staging.value, chunk);
      if inserted.Err? {
        return Fail(inserted.error);
      }
      staging := Some(inserted.value);
      res := Pass;
    }

    /** `load_stage`: create the staging clone if needed, truncate it, then
        append `rows` one chunk of at most `chunkSize` rows at a time
        (`to_sql(..., if_exists="append", method="multi", chunksize=...)`).
        The outcome is that of one insert of all the rows. */
    method LoadStage(rows: seq<SaleRecord>, chunkSize: nat) returns (res: Outcome<StorageError>)
      requires chunkSize > 0
      modifies this
      ensures production == old(production)
      ensures LoadStageSpec(old(State()), rows).Ok? ==> res.Pass? && State() == LoadStageSpec(old(State()), rows).value
      ensures LoadStageSpec(old(State()), rows).Err? ==> res == Fail(LoadStageSpec(old(State()), rows).error)
      ensures res.Fail? ==> staging == old(staging) || (staging.Some? && staging.value <= rows)
    {
      // CREATE TABLE IF NOT EXISTS ... (LIKE production INCLUDING ALL): the
      // clone starts empty.
      if staging.None? {
        if production.None? {
          return Fail(UndefinedTable);
        }
        staging := Some([]);
      }
      // TRUNCATE TABLE: whatever an earlier run left is cleared.
      staging := Some([]);
      var i := 0;
      while i < |rows|
        invariant 0 <= i <= |rows|
        invariant production == old(production)
        invariant staging == Some(rows[..i])
        invariant InsertRows([], rows) == InsertRows(rows[..i], rows[i..])
      {
        var end := if i + chunkSize < |rows| then i + chunkSize else |rows|;
        var chunk := rows[i..end];
        assert rows[i..] == chunk + rows[end..];
        InsertRowsAppend(rows[..i], chunk, rows[end..]);
        :- InsertChunk(chunk);
        assert rows[..i] + chunk == rows[..end];
        i := end;
      }
      assert rows[..i] == rows && rows[i..] == [];
      res := Pass;
    }

    /** `merge_stage_to_prod`: the insert-or-ignore merge, returning the
        number of rows inserted. */
    method MergeStageToProd() returns (res: Result<nat, StorageError>)
      modifies this
      ensures MergeSpec(old(State())).Ok? ==>
                res == Ok(MergeSpec(old(State())).value.1) && State() == MergeSpec(old(State())).value.0
      ensures MergeSpec(old(State())).Err? ==>
                res == Err(MergeSpec(old(State())).error) && State() == old(State())
    {
      if production.None? || staging.None? {
        return Err(UndefinedTable);
      }
      var m := MergeRows(production.value, staging.value);
      production := Some(m.0);
      res := Ok(m.1);
    }

    /** `DROP TABLE IF EXISTS` of the staging table. */
    method DropStage()
      modifies this
      ensures State() == Dropped(old(State()))
    {
      staging := None;
    }
  }
}
