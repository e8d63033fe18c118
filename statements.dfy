/**
 * The write statements of the data-access layer (the files under models/ and the seeding
 * step of database/setup.py) as functions from the database before the
 * statement to the database after it. Each one includes the constraint checks
 * SQLite makes and the rows its triggers and ON DELETE actions write. A
 * statement that violates a constraint raises IntegrityError and changes
 * nothing: its result is Failure and the tables are as they were.
 */
module Statements {

  import opened Wrappers
  import opened Dates
  import opened Seqs
  import opened Schema

  /** All of the database's state: the tables, their AUTOINCREMENT counters and the clock. */
  datatype Tables = Tables(
    categories: seq<Category>,
    medicines: seq<Medicine>,
    batches: seq<Batch>,
    expiredItems: seq<ExpiredItem>,
    activityLog: seq<LogEntry>,
    nextCategoryId: int,
    nextMedicineId: int,
    nextBatchId: int,
    nextExpiredId: int,
    nextLogId: int,
    clock: int)

  /** What a statement returns (lastrowid, or nothing) or the error it raises, and the tables after it. */
  datatype Exec<T> = Exec(result: Result<T, DbError>, after: Tables)

  // ---------------- rows replaced in place ----------------

  /** The table after UPDATE medicines ... WHERE id = id: the row with that id replaced. */
  function ReplaceMedicine(meds: seq<Medicine>, id: int, m: Medicine): (r: seq<Medicine>)
    ensures |r| == |meds|
    ensures forall i :: 0 <= i < |meds| ==> r[i] == if meds[i].id == id then m else meds[i]
  {
    seq(|meds|, i requires 0 <= i < |meds| => if meds[i].id == id then m else meds[i])
  }

  /** The table after UPDATE batches ... WHERE id = id. */
  function ReplaceBatch(bs: seq<Batch>, id: int, b: Batch): (r: seq<Batch>)
    ensures |r| == |bs|
    ensures forall i :: 0 <= i < |bs| ==> r[i] == if bs[i].id == id then b else bs[i]
  {
    seq(|bs|, i requires 0 <= i < |bs| => if bs[i].id == id then b else bs[i])
  }

  /** The table after UPDATE categories SET name WHERE id. */
  function RenameCategory(cats: seq<Category>, id: int, name: string): (r: seq<Category>)
    ensures |r| == |cats|
    ensures forall i :: 0 <= i < |cats| ==> r[i] == if cats[i].id == id then cats[i].(name := name) else cats[i]
  {
    seq(|cats|, i requires 0 <= i < |cats| => if cats[i].id == id then cats[i].(name := name) else cats[i])
  }

  /** The medicine after update_medicine: each field given as non-None replaced, the others kept. */
  function Patched(m: Medicine, name: Option<string>, categoryId: Option<int>, description: Option<string>): (r: Medicine)
    ensures r.id == m.id && r.createdAt == m.createdAt
    ensures r.name == if name.Some? then name.value else m.name
    ensures categoryId.Some? ==> r.categoryId == categoryId
    ensures categoryId.None? ==> r.categoryId == m.categoryId
    ensures r.description == if description.Some? then description.value else m.description
    ensures name.None? && categoryId.None? && description.None? ==> r == m
  {
    m.(name := if name.Some? then name.value else m.name,
       categoryId := if categoryId.Some? then categoryId else m.categoryId,
       description := if description.Some? then description.value else m.description)
  }

  // ---------------- database/setup.py ----------------

  /** The four categories init_db seeds, with consecutive ids from first. */
  function SeedCategories(first: int): (r: seq<Category>)
    ensures |r| == 4 && forall i :: 0 <= i < 4 ==> r[i].id == first + i
    ensures forall i, j :: 0 <= i < j < 4 ==> r[i].name != r[j].name
  {
    [Category(first, "Tablet"), Category(first + 1, "Syrup"),
     Category(first + 2, "Injection"), Category(first + 3, "Ointment")]
  }

  /**
   * init_db: the CREATE ... IF NOT EXISTS statements change nothing on an
   * existing database, and the default categories are inserted only when the
   * categories table is empty. No trigger watches categories.
   */
  function InitDb(t: Tables): (r: Tables)
    ensures |t.categories| > 0 ==> r == t
    ensures |t.categories| == 0 ==> |r.categories| == 4 && r.nextCategoryId == t.nextCategoryId + 4
    ensures r.(categories := t.categories, nextCategoryId := t.nextCategoryId) == t
  {
    if |t.categories| == 0 then
      t.(categories := SeedCategories(t.nextCategoryId), nextCategoryId := t.nextCategoryId + 4)
    else t
  }

  /** Seeding is idempotent: a second init_db finds the table non-empty and inserts nothing. */
  lemma InitDbIdempotent(t: Tables)
    ensures InitDb(InitDb(t)) == InitDb(t)
  {
  }

  // ---------------- models/categories.py ----------------

  /** create_category: INSERT INTO categories(name); a name already present violates UNIQUE. */
  function CreateCategory(t: Tables, name: string): (r: Exec<int>)
    ensures r.result.Failure? <==> NameTaken(t.categories, name)
    ensures r.result.Failure? ==> r.result.error == UniqueViolation && r.after == t
    ensures r.result.Success? ==>
      && r.result.value == t.nextCategoryId
      && NameTaken(r.after.categories, name) && HasCategory(r.after.categories, r.result.value)
      && r.after.categories == t.categories + [Category(t.nextCategoryId, name)]
      && r.after.medicines == t.medicines && r.after.batches == t.batches
      && r.after.expiredItems == t.expiredItems && r.after.activityLog == t.activityLog
  {
    if NameTaken(t.categories, name) then Exec(Failure(UniqueViolation), t)
    else
      var c := Category(t.nextCategoryId, name);
      assert c in t.categories + [c];
      Exec(Success(c.id), t.(categories := t.categories + [c], nextCategoryId := t.nextCategoryId + 1,
                             clock := t.clock + 1))
  }

  /**
   * delete_category: DELETE FROM categories WHERE id = cid. ON DELETE SET NULL
   * clears the category of every medicine that had it, and each such UPDATE of
   * medicines fires log_medicine_update (with the unchanged name).
   */
  function DeleteCategory(t: Tables, cid: int): (r: Tables)
    ensures !HasCategory(r.categories, cid)
    ensures forall c :: c in t.categories && c.id != cid <==> c in r.categories
    ensures |r.medicines| == |t.medicines| && forall m :: m in r.medicines ==> m.categoryId != Some(cid)
    ensures forall i :: 0 <= i < |t.medicines| ==>
      r.medicines[i] == if t.medicines[i].categoryId == Some(cid) then t.medicines[i].(categoryId := None) else t.medicines[i]
    ensures r.activityLog == t.activityLog + MedicineUpdateLogs(MedicinesIn(t.medicines, cid), t.nextLogId, t.clock)
    ensures r.batches == t.batches && r.expiredItems == t.expiredItems && r.clock == t.clock + 1
  {
    var logs := MedicineUpdateLogs(MedicinesIn(t.medicines, cid), t.nextLogId, t.clock);
    t.(categories := CategoriesExcept(t.categories, cid),
       medicines := ClearCategory(t.medicines, cid),
       activityLog := t.activityLog + logs,
       nextLogId := t.nextLogId + |logs|, clock := t.clock + 1)
  }

  /** The WHERE of update_category names a row and another row already has the new name. */
  predicate RenameClashes(cats: seq<Category>, cid: int, newName: string)
  {
    HasCategory(cats, cid) && exists c :: c in cats && c.id != cid && c.name == newName
  }

  /** update_category: UPDATE categories SET name WHERE id; another category's name violates UNIQUE. */
  function UpdateCategory(t: Tables, cid: int, newName: string): (r: Exec<()>)
    ensures r.result.Failure? <==> RenameClashes(t.categories, cid, newName)
    ensures r.result.Failure? ==> r.result.error == UniqueViolation && r.after == t
    ensures r.result.Success? ==>
      && |r.after.categories| == |t.categories|
      && (forall i :: 0 <= i < |t.categories| ==> r.after.categories[i].id == t.categories[i].id)
      && (forall i :: 0 <= i < |t.categories| && t.categories[i].id == cid ==> r.after.categories[i].name == newName)
      && (forall i :: 0 <= i < |t.categories| && t.categories[i].id != cid ==> r.after.categories[i] == t.categories[i])
      && (HasCategory(t.categories, cid) ==> NameTaken(r.after.categories, newName))
      && r.after.medicines == t.medicines && r.after.batches == t.batches
      && r.after.expiredItems == t.expiredItems && r.after.activityLog == t.activityLog
  {
    if RenameClashes(t.categories, cid, newName) then Exec(Failure(UniqueViolation), t)
    else
      var cats' := RenameCategory(t.categories, cid, newName);
      assert HasCategory(t.categories, cid) ==> NameTaken(cats', newName) by {
        if HasCategory(t.categories, cid) {
          var c :| c in t.categories && c.id == cid;
          var i :| 0 <= i < |t.categories| && t.categories[i] == c;
          assert cats'[i] in cats';
        }
      }
      Exec(Success(()), t.(categories := cats', clock := t.clock + 1))
  }

  // ---------------- models/medicines.py ----------------

  /** create_medicine: INSERT INTO medicines, then log_medicine_insert; an unknown category violates the FOREIGN KEY. */
  function CreateMedicine(t: Tables, name: string, categoryId: Option<int>, description: string): (r: Exec<int>)
    ensures r.result.Failure? <==> categoryId.Some? && !HasCategory(t.categories, categoryId.value)
    ensures r.result.Failure? ==> r.result.error == ForeignKeyViolation && r.after == t
    ensures r.result.Success? ==>
      && r.result.value == t.nextMedicineId && HasMedicine(r.after.medicines, r.result.value)
      && |r.after.activityLog| == |t.activityLog| + 1
      && r.after.medicines == t.medicines + [Medicine(r.result.value, name, categoryId, description, t.clock)]
      && r.after.activityLog == t.activityLog + [LogEntry(t.nextLogId, Insert, "medicines", r.result.value, name, t.clock)]
      && r.after.categories == t.categories && r.after.batches == t.batches && r.after.expiredItems == t.expiredItems
  {
    if categoryId.Some? && !HasCategory(t.categories, categoryId.value) then Exec(Failure(ForeignKeyViolation), t)
    else
      var m := Medicine(t.nextMedicineId, name, categoryId, description, t.clock);
      assert m in t.medicines + [m];
      Exec(Success(m.id), t.(medicines := t.medicines + [m],
                             activityLog := t.activityLog + [MedicineInsertLog(t.nextLogId, m, t.clock)],
                             nextMedicineId := t.nextMedicineId + 1, nextLogId := t.nextLogId + 1,
                             clock := t.clock + 1))
  }

  /** One fragment of the SET clause update_medicine assembles. */
  datatype Assignment = SetName(name: string) | SetCategory(categoryId: int) | SetDescription(description: string)

  /** The row UPDATE medicines SET <fields> makes of m; a later fragment wins over an earlier one. */
  function Assign(m: Medicine, fields: seq<Assignment>): (r: Medicine)
    ensures r.id == m.id && r.createdAt == m.createdAt
    decreases |fields|
  {
    if fields == [] then m
    else
      var m' := Assign(m, fields[..|fields| - 1]);
      match fields[|fields| - 1]
      case SetName(n) => m'.(name := n)
      case SetCategory(c) => m'.(categoryId := Some(c))
      case SetDescription(d) => m'.(description := d)
  }

  /** The SET list names category_id, so the FOREIGN KEY is checked. */
  predicate SetsCategory(fields: seq<Assignment>)
  {
    exists a :: a in fields && a.SetCategory?
  }

  /** A medicine row's category is NULL or names a category. */
  predicate CategoryOk(cats: seq<Category>, m: Medicine)
  {
    m.categoryId.None? || HasCategory(cats, m.categoryId.value)
  }

  /** The fragments update_medicine collects: name, category_id, description, for each argument not None. */
  function Fragments(name: Option<string>, categoryId: Option<int>, description: Option<string>): (r: seq<Assignment>)
    ensures r == [] <==> name.None? && categoryId.None? && description.None?
    ensures SetsCategory(r) <==> categoryId.Some?
  {
    var r := (if name.Some? then [SetName(name.value)] else [])
           + (if categoryId.Some? then [SetCategory(categoryId.value)] else [])
           + (if description.Some? then [SetDescription(description.value)] else []);
    assert categoryId.Some? ==> SetCategory(categoryId.value) in r;
    r
  }

  /** The fragments give the row Patched describes: the fields passed are replaced, the others kept. */
  lemma AssignFragments(m: Medicine, name: Option<string>, categoryId: Option<int>, description: Option<string>)
    ensures Assign(m, Fragments(name, categoryId, description)) == Patched(m, name, categoryId, description)
  {
    var f1 := if name.Some? then [SetName(name.value)] else [];
    var f2 := f1 + if categoryId.Some? then [SetCategory(categoryId.value)] else [];
    var f3 := f2 + if description.Some? then [SetDescription(description.value)] else [];
    assert Fragments(name, categoryId, description) == f3;
    var n := if name.Some? then name.value else m.name;
    var c := if categoryId.Some? then categoryId else m.categoryId;
    if name.Some? { assert f1[..|f1| - 1] == []; }
    assert Assign(m, f1) == m.(name := n);
    if categoryId.Some? { assert f2[..|f2| - 1] == f1; }
    assert Assign(m, f2) == m.(name := n, categoryId := c);
    if description.Some? { assert f3[..|f3| - 1] == f2; }
  }

  /**
   * UPDATE medicines SET <fields> WHERE id = mid: fires log_medicine_update
   * for the row it changes, if there is one. The FOREIGN KEY is checked when
   * category_id is among the fields.
   */
  function ExecuteUpdate(t: Tables, mid: int, fields: seq<Assignment>): (r: Exec<()>)
    ensures r.result.Failure? <==>
      HasMedicine(t.medicines, mid) && SetsCategory(fields)
      && !CategoryOk(t.categories, Assign(FindMedicine(t.medicines, mid).value, fields))
    ensures r.result.Failure? ==> r.result.error == ForeignKeyViolation && r.after == t
    ensures !HasMedicine(t.medicines, mid) ==> r == Exec(Success(()), t.(clock := t.clock + 1))
    ensures r.result.Success? && HasMedicine(t.medicines, mid) ==>
      var m := Assign(FindMedicine(t.medicines, mid).value, fields);
      && r.after.medicines == ReplaceMedicine(t.medicines, mid, m)
      && r.after.activityLog == t.activityLog + [LogEntry(t.nextLogId, Update, "medicines", mid, m.name, t.clock)]
      && r.after.categories == t.categories && r.after.batches == t.batches && r.after.expiredItems == t.expiredItems
      && r.after.clock == t.clock + 1
  {
    var found := FindMedicine(t.medicines, mid);
    if found.None? then Exec(Success(()), t.(clock := t.clock + 1))
    else
      var m := Assign(found.value, fields);
      if SetsCategory(fields) && !CategoryOk(t.categories, m) then Exec(Failure(ForeignKeyViolation), t)
      else
        Exec(Success(()), t.(medicines := ReplaceMedicine(t.medicines, mid, m),
                             activityLog := t.activityLog + [MedicineUpdateLog(t.nextLogId, m, t.clock)],
                             nextLogId := t.nextLogId + 1, clock := t.clock + 1))
  }

  /**
   * update_medicine: with no argument other than None it returns without
   * executing anything; otherwise it executes the UPDATE its fragments make.
   * Since None means "leave as is", the category can be replaced but never
   * cleared.
   */
  function UpdateMedicine(t: Tables, mid: int, name: Option<string>, categoryId: Option<int>, description: Option<string>)
    : (r: Exec<()>)
    ensures name.None? && categoryId.None? && description.None? ==> r == Exec(Success(()), t)
    ensures r.result.Failure? <==>
      HasMedicine(t.medicines, mid) && categoryId.Some? && !HasCategory(t.categories, categoryId.value)
    ensures r.result.Failure? ==> r.result.error == ForeignKeyViolation && r.after == t
    ensures r.result.Success? && (name.Some? || categoryId.Some? || description.Some?) ==>
      && (HasMedicine(t.medicines, mid) ==>
            var m := Patched(FindMedicine(t.medicines, mid).value, name, categoryId, description);
            && r.after.medicines == ReplaceMedicine(t.medicines, mid, m)
            && r.after.activityLog == t.activityLog + [MedicineUpdateLog(t.nextLogId, m, t.clock)]
            && r.after.categories == t.categories && r.after.batches == t.batches
            && r.after.expiredItems == t.expiredItems)
      && (!HasMedicine(t.medicines, mid) ==> r.after == t.(clock := t.clock + 1))
  {
    var fields := Fragments(name, categoryId, description);
    if fields == [] then Exec(Success(()), t)
    else
      var found := FindMedicine(t.medicines, mid);
      if found.None? then ExecuteUpdate(t, mid, fields)
      else
        AssignFragments(found.value, name, categoryId, description);
        ExecuteUpdate(t, mid, fields)
  }

  /** The log rows delete_medicine writes: one per cascaded batch, then the medicine's own. */
  function DeleteMedicineLogs(t: Tables, mid: int): (r: seq<LogEntry>)
    ensures HasMedicine(t.medicines, mid) ==> |r| == |BatchesOf(t.batches, mid)| + 1
    ensures !HasMedicine(t.medicines, mid) ==> r == []
  {
    var found := FindMedicine(t.medicines, mid);
    var doomed := BatchesOf(t.batches, mid);
    if found.Some? then
      BatchDeleteLogs(doomed, t.nextLogId, t.clock) + [MedicineDeleteLog(t.nextLogId + |doomed|, found.value, t.clock)]
    else []
  }

  /**
   * delete_medicine: DELETE FROM medicines WHERE id. ON DELETE CASCADE removes
   * the medicine's batches (each firing log_batch_delete) and, through them,
   * their expired_items rows; then log_medicine_delete fires with the old row.
   */
  function DeleteMedicine(t: Tables, mid: int): (r: Tables)
    ensures !HasMedicine(r.medicines, mid)
    ensures forall m :: m in t.medicines && m.id != mid <==> m in r.medicines
    ensures forall b :: b in t.batches && b.medicineId != mid <==> b in r.batches
    ensures forall e :: e in r.expiredItems <==>
      e in t.expiredItems && !(e.batchId.Some? && exists b :: b in t.batches && b.id == e.batchId.value && b.medicineId == mid)
    ensures r.activityLog == t.activityLog + DeleteMedicineLogs(t, mid)
    ensures r.categories == t.categories && r.clock == t.clock + 1
  {
    var logs := DeleteMedicineLogs(t, mid);
    t.(medicines := MedicinesExcept(t.medicines, mid),
       batches := BatchesNotOf(t.batches, mid),
       expiredItems := ExpiredNotOfMedicine(t.expiredItems, t.batches, mid),
       activityLog := t.activityLog + logs,
       nextLogId := t.nextLogId + |logs|, clock := t.clock + 1)
  }

  // ---------------- models/batches.py, app.py edit_batch ----------------

  /** The expired_items rows detect_expiry_on_insert / detect_expiry_on_update write for a batch row. */
  function Flagged(t: Tables, b: Batch, today: Day): (r: seq<ExpiredItem>)
    ensures FlaggedExpired(b.expiry, today) <==> |r| == 1
    ensures |r| <= 1 && forall e :: e in r ==> e.batchId == Some(b.id) && e.expiredOn == today && e.processed == 0
  {
    if FlaggedExpired(b.expiry, today) then [ExpiredRow(t.nextExpiredId, b, today)] else []
  }

  /**
   * add_batch: INSERT INTO batches, then log_batch_insert and, when the expiry
   * is on or before today, detect_expiry_on_insert. An unknown medicine
   * violates the FOREIGN KEY.
   */
  function AddBatch(t: Tables, medicineId: int, batchNo: Option<string>, quantity: Option<int>,
                    expiry: Option<string>, today: Day): (r: Exec<int>)
    ensures r.result.Failure? <==> !HasMedicine(t.medicines, medicineId)
    ensures r.result.Failure? ==> r.result.error == ForeignKeyViolation && r.after == t
    ensures r.result.Success? ==>
      && r.result.value == t.nextBatchId && HasBatch(r.after.batches, r.result.value)
      && r.after.batches == t.batches + [Batch(r.result.value, medicineId, batchNo, quantity, expiry, t.clock)]
      && r.after.activityLog == t.activityLog + [LogEntry(t.nextLogId, Insert, "batches", r.result.value, OrEmpty(batchNo), t.clock)]
      && |r.after.expiredItems| == |t.expiredItems| + (if FlaggedExpired(expiry, today) then 1 else 0)
      && r.after.expiredItems == t.expiredItems +
           (if FlaggedExpired(expiry, today) then [ExpiredItem(t.nextExpiredId, Some(r.result.value), today, 0)] else [])
      && r.after.categories == t.categories && r.after.medicines == t.medicines
  {
    if !HasMedicine(t.medicines, medicineId) then Exec(Failure(ForeignKeyViolation), t)
    else
      var b := Batch(t.nextBatchId, medicineId, batchNo, quantity, expiry, t.clock);
      var flagged := Flagged(t, b, today);
      assert b in t.batches + [b];
      Exec(Success(b.id), t.(batches := t.batches + [b],
                             expiredItems := t.expiredItems + flagged,
                             activityLog := t.activityLog + [BatchInsertLog(t.nextLogId, b, t.clock)],
                             nextBatchId := t.nextBatchId + 1, nextExpiredId := t.nextExpiredId + |flagged|,
                             nextLogId := t.nextLogId + 1, clock := t.clock + 1))
  }

  /**
   * delete_batch: DELETE FROM batches WHERE id. The batch's expired_items rows
   * go with it (ON DELETE CASCADE) and log_batch_delete records the old row.
   * An id that names no batch deletes nothing and logs nothing.
   */
  function DeleteBatch(t: Tables, bid: int): (r: Tables)
    ensures !HasBatch(r.batches, bid)
    ensures forall e :: e in r.expiredItems <==> e in t.expiredItems && e.batchId != Some(bid)
    ensures forall b :: b in t.batches && b.id != bid <==> b in r.batches
    ensures |r.activityLog| == |t.activityLog| + (if HasBatch(t.batches, bid) then 1 else 0)
    ensures HasBatch(t.batches, bid) ==>
      r.activityLog == t.activityLog + [LogEntry(t.nextLogId, Delete, "batches", bid,
                                                 OrEmpty(FindBatch(t.batches, bid).value.batchNo), t.clock)]
    ensures !HasBatch(t.batches, bid) ==> r.activityLog == t.activityLog
    ensures r.categories == t.categories && r.medicines == t.medicines && r.clock == t.clock + 1
  {
    var found := FindBatch(t.batches, bid);
    var logs := if found.Some? then [BatchDeleteLog(t.nextLogId, found.value, t.clock)] else [];
    t.(batches := BatchesExcept(t.batches, bid),
       expiredItems := ExpiredNotOfBatch(t.expiredItems, bid),
       activityLog := t.activityLog + logs,
       nextLogId := t.nextLogId + |logs|, clock := t.clock + 1)
  }

  /**
   * The statement of edit_batch: UPDATE batches SET batch_no, quantity,
   * expiry_date WHERE id. For the row it changes, log_batch_update records the
   * new quantity and expiry, and detect_expiry_on_update appends an
   * expired_items row when the new expiry is on or before today, however often
   * that batch was flagged before. No constraint can fail: the medicine is kept.
   */
  function UpdateBatch(t: Tables, bid: int, batchNo: Option<string>, quantity: Option<int>,
                       expiry: Option<string>, today: Day): (r: Tables)
    ensures !HasBatch(t.batches, bid) ==> r == t.(clock := t.clock + 1)
    ensures |r.batches| == |t.batches|
    ensures HasBatch(t.batches, bid) ==>
      && |r.activityLog| == |t.activityLog| + 1
      && r.activityLog[|t.activityLog|].details == BatchUpdateDetails(quantity, expiry)
      && |r.expiredItems| == |t.expiredItems| + (if FlaggedExpired(expiry, today) then 1 else 0)
    ensures HasBatch(t.batches, bid) ==>
      var b := FindBatch(t.batches, bid).value.(batchNo := batchNo, quantity := quantity, expiry := expiry);
      && (forall i :: 0 <= i < |t.batches| ==> r.batches[i] == if t.batches[i].id == bid then b else t.batches[i])
      && r.activityLog == t.activityLog + [LogEntry(t.nextLogId, Update, "batches", bid, BatchUpdateDetails(quantity, expiry), t.clock)]
      && r.expiredItems == t.expiredItems +
           (if FlaggedExpired(expiry, today) then [ExpiredItem(t.nextExpiredId, Some(bid), today, 0)] else [])
    ensures r.categories == t.categories && r.medicines == t.medicines && r.clock == t.clock + 1
  {
    var found := FindBatch(t.batches, bid);
    if found.None? then t.(clock := t.clock + 1)
    else
      var b := found.value.(batchNo := batchNo, quantity := quantity, expiry := expiry);
      var flagged := Flagged(t, b, today);
      t.(batches := ReplaceBatch(t.batches, bid, b),
         expiredItems := t.expiredItems + flagged,
         activityLog := t.activityLog + [BatchUpdateLog(t.nextLogId, b, t.clock)],
         nextExpiredId := t.nextExpiredId + |flagged|,
         nextLogId := t.nextLogId + 1, clock := t.clock + 1)
  }

  // ---------------- any sequence of statements ----------------

  /** One call of a data-access function, with its arguments. */
  datatype Statement =
    | InitDbCall
    | CreateCategoryCall(name: string)
    | DeleteCategoryCall(cid: int)
    | UpdateCategoryCall(cid: int, newName: string)
    | CreateMedicineCall(name: string, categoryId: Option<int>, description: string)
    | UpdateMedicineCall(mid: int, setName: Option<string>, setCategoryId: Option<int>, setDescription: Option<string>)
    | DeleteMedicineCall(mid: int)
    | AddBatchCall(medicineId: int, batchNo: Option<string>, quantity: Option<int>, expiry: Option<string>, today: Day)
    | DeleteBatchCall(bid: int)
    | UpdateBatchCall(bid: int, setBatchNo: Option<string>, setQuantity: Option<int>, setExpiry: Option<string>, today: Day)

  /** The tables after one call, whether it succeeded or raised. */
  function Run(t: Tables, s: Statement): (r: Tables)
    ensures t.activityLog <= r.activityLog
    ensures t.clock <= r.clock
  {
    match s
    case InitDbCall => InitDb(t)
    case CreateCategoryCall(name) => CreateCategory(t, name).after
    case DeleteCategoryCall(cid) => DeleteCategory(t, cid)
    case UpdateCategoryCall(cid, name) => UpdateCategory(t, cid, name).after
    case CreateMedicineCall(name, cat, desc) => CreateMedicine(t, name, cat, desc).after
    case UpdateMedicineCall(mid, name, cat, desc) => UpdateMedicine(t, mid, name, cat, desc).after
    case DeleteMedicineCall(mid) => DeleteMedicine(t, mid)
    case AddBatchCall(mid, no, qty, exp, today) => AddBatch(t, mid, no, qty, exp, today).after
    case DeleteBatchCall(bid) => DeleteBatch(t, bid)
    case UpdateBatchCall(bid, no, qty, exp, today) => UpdateBatch(t, bid, no, qty, exp, today)
  }

  /** The tables after a sequence of calls, in order. */
  function RunAll(t: Tables, ss: seq<Statement>): Tables
    decreases |ss|
  {
    if ss == [] then t else RunAll(Run(t, ss[0]), ss[1..])
  }
}
