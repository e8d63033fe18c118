/**
 * The SQLite database file of database/setup.py as an object. Each method is
 * one call of the data-access layer: it opens a connection, executes its
 * statement (with the constraint checks, triggers and ON DELETE actions that
 * go with it) and commits. The new contents of every table are those the
 * matching function of Statements gives, and the schema's constraints hold
 * before and after each call.
 */
module Database {

  import opened Wrappers
  import opened Dates
  import opened Schema
  import opened Statements
  import opened Integrity

  class Store {
    var categories: seq<Category>
    var medicines: seq<Medicine>
    var batches: seq<Batch>
    var expiredItems: seq<ExpiredItem>
    var activityLog: seq<LogEntry>
    // the AUTOINCREMENT counters (sqlite_sequence), one past the largest id ever used
    var nextCategoryId: int
    var nextMedicineId: int
    var nextBatchId: int
    var nextExpiredId: int
    var nextLogId: int
    /** CURRENT_TIMESTAMP, as a counter that every executed write statement advances. */
    var clock: int

    /** The database's contents as a value. */
    function Snapshot(): Tables
      reads this
    {
      Tables(categories, medicines, batches, expiredItems, activityLog,
             nextCategoryId, nextMedicineId, nextBatchId, nextExpiredId, nextLogId, clock)
    }

    /** Writes the tables' new contents back: the commit of the call. */
    method Commit(t: Tables)
      requires Consistent(t)
      modifies this
      ensures Snapshot() == t
      ensures Valid()
    {
      categories, medicines, batches, expiredItems, activityLog := t.categories, t.medicines, t.batches, t.expiredItems, t.activityLog;
      nextCategoryId, nextMedicineId, nextBatchId := t.nextCategoryId, t.nextMedicineId, t.nextBatchId;
      nextExpiredId, nextLogId, clock := t.nextExpiredId, t.nextLogId, t.clock;
      assert Snapshot() == t;
    }

    /** The schema's constraints and what the triggers and AUTOINCREMENT maintain. */
    ghost predicate Valid()
      reads this
    {
      Consistent(Snapshot())
    }

    /** The schema script run on a new database file: five empty tables. */
    constructor ()
      ensures Valid()
      ensures categories == [] && medicines == [] && batches == [] && expiredItems == [] && activityLog == []
      ensures nextCategoryId == 1 && nextMedicineId == 1 && nextBatchId == 1
      ensures nextExpiredId == 1 && nextLogId == 1 && clock == 0
    {
      categories, medicines, batches, expiredItems, activityLog := [], [], [], [], [];
      nextCategoryId, nextMedicineId, nextBatchId, nextExpiredId, nextLogId := 1, 1, 1, 1, 1;
      clock := 0;
    }

    /** init_db on an existing file: seeds the default categories when there are none. */
    method InitDb()
      requires Valid()
      modifies this
      ensures Valid()
      ensures Snapshot() == Statements.InitDb(old(Snapshot()))
    {
      var after := Statements.InitDb(Snapshot());
      InitDbKeeps(Snapshot());
      Commit(after);
    }

    /** create_category: the new category's id, or the UNIQUE violation. */
    method CreateCategory(name: string) returns (r: Result<int, DbError>)
      requires Valid()
      modifies this
      ensures Valid()
      ensures r == Statements.CreateCategory(old(Snapshot()), name).result
      ensures Snapshot() == Statements.CreateCategory(old(Snapshot()), name).after
      ensures r.Failure? ==> unchanged(this)
    {
      var e := Statements.CreateCategory(Snapshot(), name);
      CreateCategoryKeeps(Snapshot(), name);
      r := e.result;
      if r.Failure? {
        return;
      }
      Commit(e.after);
    }

    /** delete_category: the category goes, its medicines lose it and each such change is logged. */
    method DeleteCategory(cid: int)
      requires Valid()
      modifies this
      ensures Valid()
      ensures Snapshot() == Statements.DeleteCategory(old(Snapshot()), cid)
    {
      var after := Statements.DeleteCategory(Snapshot(), cid);
      DeleteCategoryKeeps(Snapshot(), cid);
      Commit(after);
    }

    /** update_category: renames, or reports the UNIQUE violation. */
    method UpdateCategory(cid: int, newName: string) returns (r: Result<(), DbError>)
      requires Valid()
      modifies this
      ensures Valid()
      ensures r == Statements.UpdateCategory(old(Snapshot()), cid, newName).result
      ensures Snapshot() == Statements.UpdateCategory(old(Snapshot()), cid, newName).after
      ensures r.Failure? ==> unchanged(this)
    {
      var e := Statements.UpdateCategory(Snapshot(), cid, newName);
      UpdateCategoryKeeps(Snapshot(), cid, newName);
      r := e.result;
      if r.Failure? {
        return;
      }
      Commit(e.after);
    }

    /** create_medicine: the new medicine's id, or the FOREIGN KEY violation. */
    method CreateMedicine(name: string, categoryId: Option<int>, description: string) returns (r: Result<int, DbError>)
      requires Valid()
      modifies this
      ensures Valid()
      ensures r == Statements.CreateMedicine(old(Snapshot()), name, categoryId, description).result
      ensures Snapshot() == Statements.CreateMedicine(old(Snapshot()), name, categoryId, description).after
      ensures r.Failure? ==> unchanged(this)
    {
      var e := Statements.CreateMedicine(Snapshot(), name, categoryId, description);
      CreateMedicineKeeps(Snapshot(), name, categoryId, description);
      r := e.result;
      if r.Failure? {
        return;
      }
      Commit(e.after);
    }

    /**
     * update_medicine: collects a SET fragment for each argument that is not
     * None, returns when there is none, and otherwise executes the UPDATE.
     */
    method UpdateMedicine(mid: int, name: Option<string>, categoryId: Option<int>, description: Option<string>)
      returns (r: Result<(), DbError>)
      requires Valid()
      modifies this
      ensures Valid()
      ensures r == Statements.UpdateMedicine(old(Snapshot()), mid, name, categoryId, description).result
      ensures Snapshot() == Statements.UpdateMedicine(old(Snapshot()), mid, name, categoryId, description).after
      ensures r.Failure? ==> unchanged(this)
    {
      var fields: seq<Assignment> := [];
      if name.Some? {
        fields := fields + [SetName(name.value)];
      }
      if categoryId.Some? {
        fields := fields + [SetCategory(categoryId.value)];
      }
      if description.Some? {
        fields := fields + [SetDescription(description.value)];
      }
      assert fields == Fragments(name, categoryId, description);
      if fields == [] {
        return Success(());
      }
      var e := ExecuteUpdate(Snapshot(), mid, fields);
      ExecuteUpdateKeeps(Snapshot(), mid, fields);
      r := e.result;
      if r.Failure? {
        return;
      }
      Commit(e.after);
    }

    /** delete_medicine: the medicine, its batches and their expired_items rows go; each is logged. */
    method DeleteMedicine(mid: int)
      requires Valid()
      modifies this
      ensures Valid()
      ensures Snapshot() == Statements.DeleteMedicine(old(Snapshot()), mid)
    {
      var after := Statements.DeleteMedicine(Snapshot(), mid);
      DeleteMedicineKeeps(Snapshot(), mid);
      Commit(after);
    }

    /** add_batch: the new batch's id, or the FOREIGN KEY violation; an expired batch is flagged. */
    method AddBatch(medicineId: int, batchNo: Option<string>, quantity: Option<int>, expiry: Option<string>, today: Day)
      returns (r: Result<int, DbError>)
      requires Valid()
      modifies this
      ensures Valid()
      ensures r == Statements.AddBatch(old(Snapshot()), medicineId, batchNo, quantity, expiry, today).result
      ensures Snapshot() == Statements.AddBatch(old(Snapshot()), medicineId, batchNo, quantity, expiry, today).after
      ensures r.Failure? ==> unchanged(this)
    {
      var e := Statements.AddBatch(Snapshot(), medicineId, batchNo, quantity, expiry, today);
      AddBatchKeeps(Snapshot(), medicineId, batchNo, quantity, expiry, today);
      r := e.result;
      if r.Failure? {
        return;
      }
      Commit(e.after);
    }

    /** delete_batch: the batch and its expired_items rows go; the deletion is logged. */
    method DeleteBatch(bid: int)
      requires Valid()
      modifies this
      ensures Valid()
      ensures Snapshot() == Statements.DeleteBatch(old(Snapshot()), bid)
    {
      var after := Statements.DeleteBatch(Snapshot(), bid);
      DeleteBatchKeeps(Snapshot(), bid);
      Commit(after);
    }

    /** The UPDATE of edit_batch: new batch number, quantity and expiry, logged and possibly flagged. */
    method UpdateBatch(bid: int, batchNo: Option<string>, quantity: Option<int>, expiry: Option<string>, today: Day)
      requires Valid()
      modifies this
      ensures Valid()
      ensures Snapshot() == Statements.UpdateBatch(old(Snapshot()), bid, batchNo, quantity, expiry, today)
    {
      var after := Statements.UpdateBatch(Snapshot(), bid, batchNo, quantity, expiry, today);
      UpdateBatchKeeps(Snapshot(), bid, batchNo, quantity, expiry, today);
      Commit(after);
    }
  }
}
