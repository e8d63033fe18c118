/**
 * What the write statements do to the other tables, stated across calls: the
 * audit rows the triggers append, the expired_items rows that are never
 * de-duplicated, the no-op deletes, and the category that an update can
 * replace but never clear.
 */
module Effects {

  import opened Wrappers
  import opened Text
  import opened Dates
  import opened Seqs
  import opened Schema
  import opened Statements
  import opened Integrity

  // ---------------- categories ----------------

  /** No trigger watches categories: creating or renaming one appends no log row. */
  lemma CategoryWritesLogNothing(t: Tables, name: string, cid: int, newName: string)
    ensures CreateCategory(t, name).after.activityLog == t.activityLog
    ensures UpdateCategory(t, cid, newName).after.activityLog == t.activityLog
  {
  }

  /**
   * Deleting a category logs nothing unless a medicine had it: the only rows
   * are those of the ON DELETE SET NULL updates of medicines.
   */
  lemma DeleteUnusedCategoryLogsNothing(t: Tables, cid: int)
    requires forall m :: m in t.medicines ==> m.categoryId != Some(cid)
    ensures DeleteCategory(t, cid).activityLog == t.activityLog
    ensures DeleteCategory(t, cid).medicines == t.medicines
  {
    forall i | 0 <= i < |t.medicines| ensures t.medicines[i].categoryId != Some(cid) {
      assert t.medicines[i] in t.medicines;
    }
    FilterNone(t.medicines, (m: Medicine) => m.categoryId == Some(cid));
    var r := DeleteCategory(t, cid);
    assert r.medicines == t.medicines by {
      forall i | 0 <= i < |t.medicines| ensures r.medicines[i] == t.medicines[i] {
        assert t.medicines[i] in t.medicines;
      }
    }
  }

  /** Deleting a category keeps every medicine, in place, with only the category cleared. */
  lemma DeleteCategoryKeepsMedicines(t: Tables, cid: int, i: int)
    requires 0 <= i < |t.medicines|
    ensures var m := DeleteCategory(t, cid).medicines[i];
      && m.id == t.medicines[i].id && m.name == t.medicines[i].name
      && m.description == t.medicines[i].description
      && m.categoryId == if t.medicines[i].categoryId == Some(cid) then None else t.medicines[i].categoryId
  {
  }

  // ---------------- medicines ----------------

  /** The last row delete_medicine appends is ('DELETE', 'medicines', id, old name). */
  lemma DeleteMedicineLogsOldRow(t: Tables, mid: int)
    requires HasMedicine(t.medicines, mid)
    ensures var log := DeleteMedicine(t, mid).activityLog;
      && |log| == |t.activityLog| + |BatchesOf(t.batches, mid)| + 1
      && log[|log| - 1].action == Delete && log[|log| - 1].tableName == "medicines"
      && log[|log| - 1].recordId == mid && log[|log| - 1].details == FindMedicine(t.medicines, mid).value.name
  {
    var logs := DeleteMedicineLogs(t, mid);
    assert logs[|logs| - 1] == MedicineDeleteLog(t.nextLogId + |BatchesOf(t.batches, mid)|, FindMedicine(t.medicines, mid).value, t.clock);
  }

  /** Each batch the cascade removes is logged with its id and batch number, in rowid order. */
  lemma DeleteMedicineLogsBatches(t: Tables, mid: int, k: int)
    requires HasMedicine(t.medicines, mid)
    requires 0 <= k < |BatchesOf(t.batches, mid)|
    ensures var e := DeleteMedicine(t, mid).activityLog[|t.activityLog| + k];
      && e.action == Delete && e.tableName == "batches"
      && e.recordId == BatchesOf(t.batches, mid)[k].id && e.details == OrEmpty(BatchesOf(t.batches, mid)[k].batchNo)
  {
    var doomed := BatchesOf(t.batches, mid);
    var logs := DeleteMedicineLogs(t, mid);
    assert logs[k] == BatchDeleteLogs(doomed, t.nextLogId, t.clock)[k];
  }

  /** update_medicine leaves a category in place unless another one is passed: it never clears one. */
  lemma UpdateNeverClearsCategory(t: Tables, mid: int, name: Option<string>, categoryId: Option<int>,
                                  description: Option<string>, i: int)
    requires Consistent(t)
    requires 0 <= i < |t.medicines| && t.medicines[i].id == mid && t.medicines[i].categoryId.Some?
    ensures UpdateMedicine(t, mid, name, categoryId, description).after.medicines[i].categoryId.Some?
  {
    var r := UpdateMedicine(t, mid, name, categoryId, description);
    assert t.medicines[i] in t.medicines;
    if r.result.Success? && (name.Some? || categoryId.Some? || description.Some?) {
      var m := FindMedicine(t.medicines, mid).value;
      assert m == t.medicines[i] by { MedicineIdsUnique(t, i, m); }
    }
  }

  /** Ids increase along the rowid order, so a row is the only one with its id. */
  lemma MedicineIdsUnique(t: Tables, i: int, m: Medicine)
    requires IncreasingBy(t.medicines, MedicineKey)
    requires 0 <= i < |t.medicines| && m in t.medicines && m.id == t.medicines[i].id
    ensures m == t.medicines[i]
  {
    var j :| 0 <= j < |t.medicines| && t.medicines[j] == m;
    assert j == i by {
      assert MedicineKey(t.medicines[j]) == MedicineKey(t.medicines[i]);
    }
  }

  // ---------------- batches ----------------

  /** delete_batch of an id no batch has removes nothing and logs nothing. */
  lemma DeleteAbsentBatch(t: Tables, bid: int)
    requires Consistent(t)
    requires !HasBatch(t.batches, bid)
    ensures DeleteBatch(t, bid).batches == t.batches
    ensures DeleteBatch(t, bid).expiredItems == t.expiredItems
    ensures DeleteBatch(t, bid).activityLog == t.activityLog
  {
    forall i | 0 <= i < |t.batches| ensures t.batches[i].id != bid {
      assert t.batches[i] in t.batches;
    }
    FilterAll(t.batches, (b: Batch) => b.id != bid);
    forall i | 0 <= i < |t.expiredItems| ensures t.expiredItems[i].batchId != Some(bid) {
      assert t.expiredItems[i] in t.expiredItems;
    }
    FilterAll(t.expiredItems, (e: ExpiredItem) => e.batchId != Some(bid));
  }

  /**
   * detect_expiry_on_update has no de-duplication: writing the same past date
   * to a batch twice adds two expired_items rows for it.
   */
  lemma UpdateFlagsAgain(t: Tables, bid: int, batchNo: Option<string>, quantity: Option<int>,
                         expiry: Option<string>, today: Day)
    requires HasBatch(t.batches, bid) && FlaggedExpired(expiry, today)
    ensures var t1 := UpdateBatch(t, bid, batchNo, quantity, expiry, today);
      var t2 := UpdateBatch(t1, bid, batchNo, quantity, expiry, today);
      && |t2.expiredItems| == |t.expiredItems| + 2
      && t2.expiredItems[|t.expiredItems|].batchId == Some(bid)
      && t2.expiredItems[|t.expiredItems| + 1].batchId == Some(bid)
  {
    var t1 := UpdateBatch(t, bid, batchNo, quantity, expiry, today);
    var b :| b in t.batches && b.id == bid;
    var i :| 0 <= i < |t.batches| && t.batches[i] == b;
    assert t1.batches[i].id == bid;
    assert t1.batches[i] in t1.batches;
    var f1 := FindBatch(t.batches, bid).value;
    var f2 := FindBatch(t1.batches, bid).value;
    assert Flagged(t, f1.(batchNo := batchNo, quantity := quantity, expiry := expiry), today)[0].batchId == Some(bid);
    assert Flagged(t1, f2.(batchNo := batchNo, quantity := quantity, expiry := expiry), today)[0].batchId == Some(bid);
  }

  /**
   * The details of log_batch_update read back: after "qty:" comes the quantity
   * as printf wrote it (nothing for NULL), then " expiry:" and the expiry text
   * (nothing for NULL).
   */
  lemma UpdateDetailsReadBack(quantity: Option<int>, expiry: Option<string>)
    ensures var d := BatchUpdateDetails(quantity, expiry); var k := |d| - |OrEmpty(expiry)| - 8;
      && 4 <= k && d[..4] == "qty:" && d[k..k + 8] == " expiry:" && d[k + 8..] == OrEmpty(expiry)
      && (quantity.Some? ==> ParseInt(d[4..k]) == quantity)
      && (quantity.None? ==> k == 4)
  {
    var q := if quantity.Some? then IntToString(quantity.value) else "";
    var e := OrEmpty(expiry);
    var d := BatchUpdateDetails(quantity, expiry);
    assert d == "qty:" + q + " expiry:" + e;
    var k := |d| - |e| - 8;
    assert k == 4 + |q|;
    assert d[4..k] == q;
    assert d[k..k + 8] == " expiry:";
    assert d[k + 8..] == e;
    if quantity.Some? {
      ParseIntOfIntToString(quantity.value);
    }
  }
}
