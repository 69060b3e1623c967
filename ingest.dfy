/** The batch run (`main`): read and clean the sheet, then, in one
    transaction, ensure the production table, load staging, merge and drop
    staging; exit 0 on success, 1 when reading fails, 2 when the database step
    fails. */
module Ingest {
  import opened Wrappers
  import opened Records
  import opened Validate
  import opened Storage

  /** How a run ends, with the counts it logs. */
  datatype RunOutcome =
    | Done(rowsIn: nat, removed: nat, inserted: nat)
    | ReadFailed(readError: ReadError)
    | StorageFailed(storageError: StorageError)
  {
    /** The process exit status. */
    function ExitCode(): (code: int)
      ensures code == 0 <==> Done?
      ensures code == 1 <==> ReadFailed?
      ensures code == 2 <==> StorageFailed?
    {
      match this
      case Done(_, _, _) => 0
      case ReadFailed(_) => 1
      case StorageFailed(_) => 2
    }
  }

  /** The body of the `with eng.begin()` block, on the transaction's view of
      the store; `faults` names the statements the backend refuses. Returns the
      state to commit and the merge count. */
  function Transaction(s: Store, rows: seq<SaleRecord>, faults: set<Step>): (r: Result<(Store, nat), StorageError>)
    ensures r.Ok? ==> faults == {} && r.value.0.staging.None? && r.value.0.production.Some?
    ensures r.Err? && r.error.BackendFault? ==> r.error.step in faults
    ensures EnsureStep in faults ==> r == Err(BackendFault(EnsureStep))
  {
    if EnsureStep in faults then Err(BackendFault(EnsureStep))
    else
      var ensured := Ensured(s);
      if StageStep in faults then Err(BackendFault(StageStep))
      else
        var staged :- LoadStageSpec(ensured, rows);
        if MergeStep in faults then Err(BackendFault(MergeStep))
        else
          var merged :- MergeSpec(staged);
          if DropStep in faults then Err(BackendFault(DropStep))
          else
            assert forall f: Step :: f !in faults by {
              forall f: Step ensures f !in faults {
                assert f == EnsureStep || f == StageStep || f == MergeStep || f == DropStep;
              }
            }
            Ok((Dropped(merged.0), merged.1))
  }

  /** What follows the read: nothing when it failed (no connection is
      made), otherwise the transaction, committed or rolled back. */
  function Execute(s: Store, read: Result<Cleaned, ReadError>, faults: set<Step>): (res: (Store, RunOutcome))
    ensures res.1.ExitCode() != 0 ==> res.0 == s
    ensures res.1.ExitCode() == 1 <==> read.Err?
    ensures res.1.ExitCode() == 0 ==> res.0.staging.None? && res.0.production.Some?
  {
    match read
    case Err(e) => (s, ReadFailed(e))
    case Ok(clean) =>
      match Transaction(s, clean.rows, faults)
      case Err(e) => (s, StorageFailed(e))
      case Ok(committed) => (committed.0, Done(|clean.rows|, clean.removed, committed.1))
  }

  /** A whole run from store `s`. */
  function Run(s: Store, sheet: Sheet, faults: set<Step>): (res: (Store, RunOutcome))
    ensures res.1.ExitCode() != 0 ==> res.0 == s
    ensures res.1.ExitCode() == 1 <==> ReadFoodSales(sheet).Err?
  {
    Execute(s, ReadFoodSales(sheet), faults)
  }

  /** `main`, against database `db` with batch size `chunkSize`. */
  method Ingest(db: Database, sheet: Sheet, chunkSize: nat, faults: set<Step>) returns (outcome: RunOutcome)
    requires chunkSize > 0
    modifies db
    ensures (db.State(), outcome) == Run(old(db.State()), sheet, faults)
  {
    var read := ReadFoodSales(sheet);
    if read.Err? {
      return ReadFailed(read.error);
    }
    var clean := read.value;
    var tx := db.Begin();
    if EnsureStep in faults {
      return StorageFailed(BackendFault(EnsureStep));
    }
    tx.EnsureSchemaAndTables();
    if StageStep in faults {
      return StorageFailed(BackendFault(StageStep));
    }
    var staged := tx.LoadStage(clean.rows, chunkSize);
    if staged.Fail? {
      return StorageFailed(staged.error);
    }
    if MergeStep in faults {
      return StorageFailed(BackendFault(MergeStep));
    }
    var merged := tx.MergeStageToProd();
    if merged.Err? {
      return StorageFailed(merged.error);
    }
    if DropStep in faults {
      return StorageFailed(BackendFault(DropStep));
    }
    tx.DropStage();
    db.Commit(tx);
    outcome := Done(|clean.rows|, clean.removed, merged.value);
  }

  /** A missing required column ends the run with exit code 1, reporting the
      missing headers, and nothing in the store changes. */
  lemma MissingColumnExitsOne(s: Store, sheet: Sheet, faults: set<Step>)
    requires !HasExpectedColumns(sheet)
    ensures Run(s, sheet, faults) ==
              (s, ReadFailed(MissingColumns(Missing(sheet.columns), sheet.columns)))
    ensures Run(s, sheet, faults).1.ExitCode() == 1
  {
  }

  /** The transaction commits exactly when the backend refuses no step and
      the rows fit the staging table: distinct ids, values within their column
      types and the CHECK constraints. */
  lemma TransactionCommitsIff(s: Store, rows: seq<SaleRecord>, faults: set<Step>)
    ensures Transaction(s, rows, faults).Ok? <==> faults == {} && ValidStaging(rows)
  {
    LoadStageResult(Ensured(s), rows);
  }

  /** A run exits 0 exactly when the sheet is read, the backend refuses
      nothing, the clean rows have distinct ids and their values fit the
      column types; otherwise the store is left as it was. */
  lemma RunSucceedsIff(s: Store, sheet: Sheet, faults: set<Step>)
    ensures Run(s, sheet, faults).1.ExitCode() == 0 <==>
              && ReadFoodSales(sheet).Ok? && faults == {}
              && DistinctIds(ReadFoodSales(sheet).value.rows)
              && forall i :: 0 <= i < |ReadFoodSales(sheet).value.rows| ==>
                   Representable(ReadFoodSales(sheet).value.rows[i])
    ensures Run(s, sheet, faults).1.ExitCode() != 0 ==> Run(s, sheet, faults).0 == s
  {
    if ReadFoodSales(sheet).Ok? {
      CleanRowsValid(sheet);
      TransactionCommitsIff(s, ReadFoodSales(sheet).value.rows, faults);
    }
  }

  /** Two clean rows with the same id break the staging primary key: the run
      exits 2 and rolls back. Duplicates within one sheet are not resolved by
      the first one winning. */
  lemma DuplicateIdRollsBack(s: Store, sheet: Sheet, faults: set<Step>, i: nat, j: nat)
    requires ReadFoodSales(sheet).Ok?
    requires i < j < |ReadFoodSales(sheet).value.rows|
    requires ReadFoodSales(sheet).value.rows[i].id == ReadFoodSales(sheet).value.rows[j].id
    ensures Run(s, sheet, faults).0 == s
    ensures Run(s, sheet, faults).1.ExitCode() == 2
  {
    RunSucceedsIff(s, sheet, faults);
  }

  /** A clean row whose qty overflows `integer` or whose price overflows
      `numeric(18,2)` makes the staging insert fail: the run exits 2 and
      rolls back. */
  lemma OverflowRollsBack(s: Store, sheet: Sheet, faults: set<Step>, i: nat)
    requires ReadFoodSales(sheet).Ok?
    requires i < |ReadFoodSales(sheet).value.rows|
    requires !Representable(ReadFoodSales(sheet).value.rows[i])
    ensures Run(s, sheet, faults).0 == s
    ensures Run(s, sheet, faults).1.ExitCode() == 2
  {
    RunSucceedsIff(s, sheet, faults);
  }

  /** A successful run: the production table keeps every row it had unchanged,
      gains exactly the ids of the clean rows, stores each clean row whose id
      was new as it was read, and reports as inserted the number of ids it
      gained; staging is gone. */
  lemma RunSuccessEffect(s: Store, sheet: Sheet, faults: set<Step>)
    requires Run(s, sheet, faults).1.ExitCode() == 0
    ensures ReadFoodSales(sheet).Ok?
    ensures var rows, old_, after := ReadFoodSales(sheet).value.rows,
                                     Ensured(s).production.value, Run(s, sheet, faults).0;
            && after.staging.None?
            && after.production == Some(MergeRows(old_, rows).0)
            && after.production.value.Keys == old_.Keys + Ids(rows)
            && (forall k :: k in old_ ==> after.production.value[k] == old_[k])
            && (forall i :: 0 <= i < |rows| && rows[i].id !in old_ ==>
                  rows[i].id in after.production.value && after.production.value[rows[i].id] == rows[i])
            && Run(s, sheet, faults).1.inserted == |after.production.value| - |old_|
  {
    var rows := ReadFoodSales(sheet).value.rows;
    RunSucceedsIff(s, sheet, faults);
    var prod := Ensured(s).production.value;
    LoadStageResult(Ensured(s), rows);
    MergeRowsKeys(prod, rows);
    MergeRowsKeepsExisting(prod, rows);
    MergeRowsCount(prod, rows);
    MergeRowsInsertsStaged(prod, rows);
  }

  /** Running the same sheet again right after a successful run inserts
      nothing and leaves the store exactly as the first run left it. */
  lemma RunIdempotent(s: Store, sheet: Sheet, faults: set<Step>)
    requires Run(s, sheet, faults).1.ExitCode() == 0
    ensures var (s1, first) := Run(s, sheet, faults);
            Run(s1, sheet, faults) == (s1, Done(first.rowsIn, first.removed, 0))
  {
    var rows := ReadFoodSales(sheet).value.rows;
    RunSucceedsIff(s, sheet, faults);
    var s1 := Run(s, sheet, faults).0;
    RunSucceedsIff(s1, sheet, faults);
    var prod := Ensured(s).production.value;
    LoadStageResult(Ensured(s), rows);
    LoadStageResult(Ensured(s1), rows);
    MergeRowsIdempotent(prod, rows);
  }

  /** A run keeps the production table keyed by id, within its column types
      and within its CHECK constraints: no row with a negative qty, unit price
      or total price ever reaches it. */
  lemma RunKeepsValid(s: Store, sheet: Sheet, faults: set<Step>)
    requires Valid(s)
    ensures Valid(Run(s, sheet, faults).0)
  {
    if Run(s, sheet, faults).1.ExitCode() == 0 {
      var rows := ReadFoodSales(sheet).value.rows;
      RunSucceedsIff(s, sheet, faults);
      LoadStageResult(Ensured(s), rows);
      MergeRowsKeyed(Ensured(s).production.value, rows);
    }
  }
}
