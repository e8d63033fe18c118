/**
 * The invariant the schema of database/setup.py maintains, over a snapshot of
 * the five tables and their counters, and one lemma per write statement
 * showing that the statement, with its trigger and ON DELETE side effects,
 * keeps it.
 */
module Integrity {

  import opened Wrappers
  import opened Dates
  import opened Seqs
  import opened Schema
  import opened Statements

  /** FOREIGN KEY(category_id) REFERENCES categories(id). */
  ghost predicate CategoryRefs(meds: seq<Medicine>, cats: seq<Category>)
  {
    forall m :: m in meds && m.categoryId.Some? ==> HasCategory(cats, m.categoryId.value)
  }

  /** FOREIGN KEY(medicine_id) REFERENCES medicines(id), with medicine_id NOT NULL. */
  ghost predicate MedicineRefs(bs: seq<Batch>, meds: seq<Medicine>)
  {
    forall b :: b in bs ==> HasMedicine(meds, b.medicineId)
  }

  /** FOREIGN KEY(batch_id) REFERENCES batches(id). */
  ghost predicate BatchRefs(items: seq<ExpiredItem>, bs: seq<Batch>)
  {
    forall e :: e in items && e.batchId.Some? ==> HasBatch(bs, e.batchId.value)
  }

  /** activity_log in rowid order is also in timestamp order, and no row is stamped in the future. */
  ghost predicate Chronological(log: seq<LogEntry>, clock: int)
  {
    && (forall i, j :: 0 <= i < j < |log| ==> log[i].timestamp <= log[j].timestamp)
    && (forall i :: 0 <= i < |log| ==> log[i].timestamp < clock)
  }

  ghost predicate Consistent(t: Tables)
  {
    && Keyed(t.categories, CategoryKey, t.nextCategoryId)
    && Keyed(t.medicines, MedicineKey, t.nextMedicineId)
    && Keyed(t.batches, BatchKey, t.nextBatchId)
    && Keyed(t.expiredItems, ExpiredKey, t.nextExpiredId)
    && Keyed(t.activityLog, LogKey, t.nextLogId)
    && NamesUnique(t.categories)
    && CategoryRefs(t.medicines, t.categories)
    && MedicineRefs(t.batches, t.medicines)
    && BatchRefs(t.expiredItems, t.batches)
    && Chronological(t.activityLog, t.clock)
  }

  // ---------------- rows replaced in place ----------------

  lemma MedicineIdsKept(meds: seq<Medicine>, r: seq<Medicine>, next: int)
    requires Keyed(meds, MedicineKey, next)
    requires |r| == |meds| && forall i :: 0 <= i < |r| ==> r[i].id == meds[i].id
    ensures Keyed(r, MedicineKey, next)
    ensures forall id :: HasMedicine(r, id) <==> HasMedicine(meds, id)
  {
    forall id ensures HasMedicine(r, id) <==> HasMedicine(meds, id) {
      if HasMedicine(r, id) {
        var m :| m in r && m.id == id;
        var i :| 0 <= i < |r| && r[i] == m;
        assert meds[i] in meds;
      }
      if HasMedicine(meds, id) {
        var m :| m in meds && m.id == id;
        var i :| 0 <= i < |meds| && meds[i] == m;
        assert r[i] in r;
      }
    }
  }

  lemma BatchIdsKept(bs: seq<Batch>, r: seq<Batch>, next: int)
    requires Keyed(bs, BatchKey, next)
    requires |r| == |bs| && forall i :: 0 <= i < |r| ==> r[i].id == bs[i].id && r[i].medicineId == bs[i].medicineId
    ensures Keyed(r, BatchKey, next)
    ensures forall id :: HasBatch(r, id) <==> HasBatch(bs, id)
    ensures forall meds :: MedicineRefs(bs, meds) ==> MedicineRefs(r, meds)
  {
    forall id ensures HasBatch(r, id) <==> HasBatch(bs, id) {
      if HasBatch(r, id) {
        var b :| b in r && b.id == id;
        var i :| 0 <= i < |r| && r[i] == b;
        assert bs[i] in bs;
      }
      if HasBatch(bs, id) {
        var b :| b in bs && b.id == id;
        var i :| 0 <= i < |bs| && bs[i] == b;
        assert r[i] in r;
      }
    }
    forall meds | MedicineRefs(bs, meds) ensures MedicineRefs(r, meds) {
      forall b | b in r ensures HasMedicine(meds, b.medicineId) {
        var i :| 0 <= i < |r| && r[i] == b;
        assert bs[i] in bs;
      }
    }
  }

  // ---------------- rows appended ----------------

  /** Rows appended by one statement: consecutive log ids from first, all stamped ts. */
  ghost predicate Stamped(t: seq<LogEntry>, first: int, ts: int)
  {
    forall k :: 0 <= k < |t| ==> t[k].id == first + k && t[k].timestamp == ts
  }

  lemma AppendLogRows(log: seq<LogEntry>, t: seq<LogEntry>, next: int, clock: int)
    requires Keyed(log, LogKey, next) && Chronological(log, clock)
    requires Stamped(t, next, clock)
    ensures Keyed(log + t, LogKey, next + |t|) && Chronological(log + t, clock + 1)
  {
    assert Keyed(t, LogKey, next + |t|);
    KeyedAppend(log, t, LogKey, next, next + |t|);
    var u := log + t;
    forall i, j | 0 <= i < j < |u| ensures u[i].timestamp <= u[j].timestamp {
      if j < |log| {
        assert u[i] == log[i] && u[j] == log[j];
      } else if i < |log| {
        assert u[i] == log[i] && u[j] == t[j - |log|];
      } else {
        assert u[i] == t[i - |log|] && u[j] == t[j - |log|];
      }
    }
    forall i | 0 <= i < |u| ensures u[i].timestamp < clock + 1 {
      if i < |log| { assert u[i] == log[i]; } else { assert u[i] == t[i - |log|]; }
    }
  }

  lemma ClockAdvances(log: seq<LogEntry>, clock: int)
    requires Chronological(log, clock)
    ensures Chronological(log, clock + 1)
  {
  }

  // ---------------- one lemma per statement ----------------

  lemma CreateCategoryKeeps(t: Tables, name: string)
    requires Consistent(t)
    ensures Consistent(CreateCategory(t, name).after)
  {
    if NameTaken(t.categories, name) { return; }
    var c := Category(t.nextCategoryId, name);
    var cats := t.categories + [c];
    KeyedAppend(t.categories, [c], CategoryKey, t.nextCategoryId, t.nextCategoryId + 1);
    forall i, j | 0 <= i < j < |cats| ensures cats[i].name != cats[j].name {
      assert cats[i] == t.categories[i];
      if j < |t.categories| {
        assert cats[j] == t.categories[j];
      } else {
        assert t.categories[i] in t.categories;
      }
    }
    forall m | m in t.medicines && m.categoryId.Some? ensures HasCategory(cats, m.categoryId.value) {
      var x :| x in t.categories && x.id == m.categoryId.value;
      assert x in cats;
    }
  }

  lemma DeleteCategoryKeeps(t: Tables, cid: int)
    requires Consistent(t)
    ensures Consistent(DeleteCategory(t, cid))
  {
    var cats' := CategoriesExcept(t.categories, cid);
    KeyedFilter(t.categories, (c: Category) => c.id != cid, CategoryKey, t.nextCategoryId);
    FilterKeepsDistinct(t.categories, (c: Category) => c.id != cid, CategoryName);
    var meds' := ClearCategory(t.medicines, cid);
    MedicineIdsKept(t.medicines, meds', t.nextMedicineId);
    forall m | m in meds' && m.categoryId.Some? ensures HasCategory(cats', m.categoryId.value) {
      var i :| 0 <= i < |meds'| && meds'[i] == m;
      assert t.medicines[i] in t.medicines;
      var c :| c in t.categories && c.id == t.medicines[i].categoryId.value;
      assert c in cats';
    }
    var logs := MedicineUpdateLogs(MedicinesIn(t.medicines, cid), t.nextLogId, t.clock);
    AppendLogRows(t.activityLog, logs, t.nextLogId, t.clock);
  }

  lemma UpdateCategoryKeeps(t: Tables, cid: int, newName: string)
    requires Consistent(t)
    ensures Consistent(UpdateCategory(t, cid, newName).after)
  {
    if RenameClashes(t.categories, cid, newName) { return; }
    var cats := t.categories;
    var cats' := RenameCategory(cats, cid, newName);
    assert forall i :: 0 <= i < |cats'| ==> cats'[i].id == cats[i].id;
    forall i, j | 0 <= i < j < |cats'| ensures cats'[i].name != cats'[j].name {
      assert cats[i].id < cats[j].id;
      assert cats[i] in cats && cats[j] in cats;
    }
    forall m | m in t.medicines && m.categoryId.Some? ensures HasCategory(cats', m.categoryId.value) {
      var c :| c in cats && c.id == m.categoryId.value;
      var i :| 0 <= i < |cats| && cats[i] == c;
      assert cats'[i] in cats';
    }
  }

  lemma CreateMedicineKeeps(t: Tables, name: string, categoryId: Option<int>, description: string)
    requires Consistent(t)
    ensures Consistent(CreateMedicine(t, name, categoryId, description).after)
  {
    if categoryId.Some? && !HasCategory(t.categories, categoryId.value) { return; }
    var m := Medicine(t.nextMedicineId, name, categoryId, description, t.clock);
    KeyedAppend(t.medicines, [m], MedicineKey, t.nextMedicineId, t.nextMedicineId + 1);
    AppendLogRows(t.activityLog, [MedicineInsertLog(t.nextLogId, m, t.clock)], t.nextLogId, t.clock);
    forall b | b in t.batches ensures HasMedicine(t.medicines + [m], b.medicineId) {
      var x :| x in t.medicines && x.id == b.medicineId;
      assert x in t.medicines + [m];
    }
  }

  lemma UpdateMedicineKeeps(t: Tables, mid: int, name: Option<string>, categoryId: Option<int>, description: Option<string>)
    requires Consistent(t)
    ensures Consistent(UpdateMedicine(t, mid, name, categoryId, description).after)
  {
    var fields := Fragments(name, categoryId, description);
    if fields == [] { return; }
    ExecuteUpdateKeeps(t, mid, fields);
  }

  lemma ExecuteUpdateKeeps(t: Tables, mid: int, fields: seq<Assignment>)
    requires Consistent(t)
    ensures Consistent(ExecuteUpdate(t, mid, fields).after)
  {
    var found := FindMedicine(t.medicines, mid);
    if found.None? { return; }
    var m := Assign(found.value, fields);
    if SetsCategory(fields) && !CategoryOk(t.categories, m) { return; }
    assert CategoryOk(t.categories, m) by {
      if !SetsCategory(fields) {
        AssignKeepsCategory(found.value, fields);
        assert found.value in t.medicines;
      }
    }
    ReplacedMedicineKeeps(t, mid, m);
    assert ExecuteUpdate(t, mid, fields).after ==
      t.(medicines := ReplaceMedicine(t.medicines, mid, m),
         activityLog := t.activityLog + [MedicineUpdateLog(t.nextLogId, m, t.clock)],
         nextLogId := t.nextLogId + 1, clock := t.clock + 1);
  }

  /** Replacing a medicine row by one with the same id and a valid category, and logging it, keeps the invariant. */
  lemma ReplacedMedicineKeeps(t: Tables, mid: int, m: Medicine)
    requires Consistent(t)
    requires m.id == mid && CategoryOk(t.categories, m)
    ensures Consistent(t.(medicines := ReplaceMedicine(t.medicines, mid, m),
                          activityLog := t.activityLog + [MedicineUpdateLog(t.nextLogId, m, t.clock)],
                          nextLogId := t.nextLogId + 1, clock := t.clock + 1))
  {
    var meds' := ReplaceMedicine(t.medicines, mid, m);
    MedicineIdsKept(t.medicines, meds', t.nextMedicineId);
    forall x | x in meds' && x.categoryId.Some? ensures HasCategory(t.categories, x.categoryId.value) {
      var i :| 0 <= i < |meds'| && meds'[i] == x;
      assert t.medicines[i] in t.medicines;
    }
    AppendLogRows(t.activityLog, [MedicineUpdateLog(t.nextLogId, m, t.clock)], t.nextLogId, t.clock);
  }

  /** Without a category_id fragment the row keeps its category. */
  lemma {:induction false} AssignKeepsCategory(m: Medicine, fields: seq<Assignment>)
    requires !SetsCategory(fields)
    ensures Assign(m, fields).categoryId == m.categoryId
    decreases |fields|
  {
    if fields != [] {
      var init := fields[..|fields| - 1];
      assert forall a :: a in init ==> a in fields;
      AssignKeepsCategory(m, init);
      assert fields[|fields| - 1] in fields;
    }
  }

  lemma DeleteMedicineKeeps(t: Tables, mid: int)
    requires Consistent(t)
    ensures Consistent(DeleteMedicine(t, mid))
  {
    var logs := DeleteMedicineLogs(t, mid);
    assert Stamped(logs, t.nextLogId, t.clock);
    var bs := t.batches;
    var meds' := MedicinesExcept(t.medicines, mid);
    var bs' := BatchesNotOf(bs, mid);
    var items' := ExpiredNotOfMedicine(t.expiredItems, bs, mid);
    KeyedFilter(t.medicines, (m: Medicine) => m.id != mid, MedicineKey, t.nextMedicineId);
    KeyedFilter(bs, (b: Batch) => b.medicineId != mid, BatchKey, t.nextBatchId);
    KeyedFilter(t.expiredItems, (e: ExpiredItem) => !(e.batchId.Some? && exists b :: b in bs && b.id == e.batchId.value && b.medicineId == mid), ExpiredKey, t.nextExpiredId);
    forall m | m in meds' && m.categoryId.Some? ensures HasCategory(t.categories, m.categoryId.value) {
      assert m in t.medicines;
    }
    forall b | b in bs' ensures HasMedicine(meds', b.medicineId) {
      var m :| m in t.medicines && m.id == b.medicineId;
      assert m in meds';
    }
    forall e | e in items' && e.batchId.Some? ensures HasBatch(bs', e.batchId.value) {
      var b :| b in bs && b.id == e.batchId.value;
      assert b in bs';
    }
    AppendLogRows(t.activityLog, logs, t.nextLogId, t.clock);
  }

  lemma AddBatchKeeps(t: Tables, medicineId: int, batchNo: Option<string>, quantity: Option<int>,
                      expiry: Option<string>, today: Day)
    requires Consistent(t)
    ensures Consistent(AddBatch(t, medicineId, batchNo, quantity, expiry, today).after)
  {
    if !HasMedicine(t.medicines, medicineId) { return; }
    var b := Batch(t.nextBatchId, medicineId, batchNo, quantity, expiry, t.clock);
    var flagged := Flagged(t, b, today);
    var bs' := t.batches + [b];
    KeyedAppend(t.batches, [b], BatchKey, t.nextBatchId, t.nextBatchId + 1);
    KeyedAppend(t.expiredItems, flagged, ExpiredKey, t.nextExpiredId, t.nextExpiredId + |flagged|);
    AppendLogRows(t.activityLog, [BatchInsertLog(t.nextLogId, b, t.clock)], t.nextLogId, t.clock);
    forall e | e in t.expiredItems + flagged && e.batchId.Some? ensures HasBatch(bs', e.batchId.value) {
      if e in t.expiredItems {
        var x :| x in t.batches && x.id == e.batchId.value;
        assert x in bs';
      } else {
        assert b in bs';
      }
    }
  }

  lemma DeleteBatchKeeps(t: Tables, bid: int)
    requires Consistent(t)
    ensures Consistent(DeleteBatch(t, bid))
  {
    var found := FindBatch(t.batches, bid);
    var logs := if found.Some? then [BatchDeleteLog(t.nextLogId, found.value, t.clock)] else [];
    var bs' := BatchesExcept(t.batches, bid);
    var items' := ExpiredNotOfBatch(t.expiredItems, bid);
    KeyedFilter(t.batches, (b: Batch) => b.id != bid, BatchKey, t.nextBatchId);
    KeyedFilter(t.expiredItems, (e: ExpiredItem) => e.batchId != Some(bid), ExpiredKey, t.nextExpiredId);
    forall b | b in bs' ensures HasMedicine(t.medicines, b.medicineId) {
      assert b in t.batches;
    }
    forall e | e in items' && e.batchId.Some? ensures HasBatch(bs', e.batchId.value) {
      var b :| b in t.batches && b.id == e.batchId.value;
      assert b in bs';
    }
    AppendLogRows(t.activityLog, logs, t.nextLogId, t.clock);
  }

  lemma UpdateBatchKeeps(t: Tables, bid: int, batchNo: Option<string>, quantity: Option<int>,
                         expiry: Option<string>, today: Day)
    requires Consistent(t)
    ensures Consistent(UpdateBatch(t, bid, batchNo, quantity, expiry, today))
  {
    var found := FindBatch(t.batches, bid);
    if found.None? { return; }
    var b := found.value.(batchNo := batchNo, quantity := quantity, expiry := expiry);
    var flagged := Flagged(t, b, today);
    var bs' := ReplaceBatch(t.batches, bid, b);
    var was := FindBatch(t.batches, bid).value;
    forall i | 0 <= i < |bs'| ensures bs'[i].id == t.batches[i].id && bs'[i].medicineId == t.batches[i].medicineId {
      if t.batches[i].id == bid {
        var k :| 0 <= k < |t.batches| && t.batches[k] == was;
        assert BatchKey(t.batches[k]) == BatchKey(t.batches[i]);
        assert k == i;
      }
    }
    BatchIdsKept(t.batches, bs', t.nextBatchId);
    KeyedAppend(t.expiredItems, flagged, ExpiredKey, t.nextExpiredId, t.nextExpiredId + |flagged|);
    AppendLogRows(t.activityLog, [BatchUpdateLog(t.nextLogId, b, t.clock)], t.nextLogId, t.clock);
    forall e | e in t.expiredItems + flagged && e.batchId.Some? ensures HasBatch(bs', e.batchId.value) {
      if e in t.expiredItems {
        assert HasBatch(t.batches, e.batchId.value);
      }
    }
    assert UpdateBatch(t, bid, batchNo, quantity, expiry, today) ==
      t.(batches := bs', expiredItems := t.expiredItems + flagged,
         activityLog := t.activityLog + [BatchUpdateLog(t.nextLogId, b, t.clock)],
         nextExpiredId := t.nextExpiredId + |flagged|, nextLogId := t.nextLogId + 1, clock := t.clock + 1);
  }

  lemma InitDbKeeps(t: Tables)
    requires Consistent(t)
    ensures Consistent(InitDb(t))
  {
    if |t.categories| == 0 {
      var seeds := SeedCategories(t.nextCategoryId);
      assert Keyed(seeds, CategoryKey, t.nextCategoryId + 4);
    }
  }

  // ---------------- any sequence of calls ----------------

  /** Every data-access call keeps the database consistent, whether it succeeds or raises. */
  lemma RunKeeps(t: Tables, s: Statement)
    requires Consistent(t)
    ensures Consistent(Run(t, s))
  {
    match s
    case InitDbCall => InitDbKeeps(t);
    case CreateCategoryCall(name) => CreateCategoryKeeps(t, name);
    case DeleteCategoryCall(cid) => DeleteCategoryKeeps(t, cid);
    case UpdateCategoryCall(cid, name) => UpdateCategoryKeeps(t, cid, name);
    case CreateMedicineCall(name, cat, desc) => CreateMedicineKeeps(t, name, cat, desc);
    case UpdateMedicineCall(mid, name, cat, desc) => UpdateMedicineKeeps(t, mid, name, cat, desc);
    case DeleteMedicineCall(mid) => DeleteMedicineKeeps(t, mid);
    case AddBatchCall(mid, no, qty, exp, today) => AddBatchKeeps(t, mid, no, qty, exp, today);
    case DeleteBatchCall(bid) => DeleteBatchKeeps(t, bid);
    case UpdateBatchCall(bid, no, qty, exp, today) => UpdateBatchKeeps(t, bid, no, qty, exp, today);
  }

  /**
   * From the database init_db creates, no sequence of calls breaks the
   * schema's constraints, and the activity log only ever grows at its end.
   */
  lemma {:induction false} RunAllKeeps(t: Tables, ss: seq<Statement>)
    requires Consistent(t)
    ensures Consistent(RunAll(t, ss))
    ensures t.activityLog <= RunAll(t, ss).activityLog
    decreases |ss|
  {
    if ss != [] {
      RunKeeps(t, ss[0]);
      RunAllKeeps(Run(t, ss[0]), ss[1..]);
    }
  }
}
