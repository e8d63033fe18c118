/**
 * The five tables and the one view of the pharmacy database, as records, and
 * the rows its triggers write. A table is a sequence of rows in rowid order;
 * an id that is AUTOINCREMENT is never reused.
 */
module Schema {

  import opened Wrappers
  import opened Text
  import opened Dates
  import opened Seqs

  datatype Category = Category(id: int, name: string)

  datatype Medicine = Medicine(
    id: int,
    name: string,
    categoryId: Option<int>,
    description: string,
    createdAt: int)

  datatype Batch = Batch(
    id: int,
    medicineId: int,
    batchNo: Option<string>,
    quantity: Option<int>,
    expiry: Option<string>,
    createdAt: int)

  datatype ExpiredItem = ExpiredItem(id: int, batchId: Option<int>, expiredOn: Day, processed: int)

  datatype Action = Insert | Update | Delete

  datatype LogEntry = LogEntry(
    id: int,
    action: Action,
    tableName: string,
    recordId: int,
    details: string,
    timestamp: int)

  /** What an IntegrityError reports: a UNIQUE or a FOREIGN KEY constraint failed. */
  datatype DbError = UniqueViolation | ForeignKeyViolation

  /** The text stored in activity_log.action. */
  function ActionName(a: Action): string
  {
    match a
    case Insert => "INSERT"
    case Update => "UPDATE"
    case Delete => "DELETE"
  }

  function CategoryKey(c: Category): int { c.id }
  function MedicineKey(m: Medicine): int { m.id }
  function BatchKey(b: Batch): int { b.id }
  function ExpiredKey(e: ExpiredItem): int { e.id }
  function LogKey(e: LogEntry): int { e.id }
  function CategoryName(c: Category): string { c.name }

  /** A table's ids are positive, increase in rowid order and lie below the next AUTOINCREMENT value. */
  ghost predicate Keyed<T(!new)>(s: seq<T>, key: T -> int, next: int)
  {
    && next >= 1
    && IncreasingBy(s, key)
    && forall i :: 0 <= i < |s| ==> 1 <= key(s[i]) < next
  }

  lemma KeyedAppend<T(!new)>(s: seq<T>, t: seq<T>, key: T -> int, next: int, next': int)
    requires Keyed(s, key, next) && Keyed(t, key, next')
    requires next <= next'
    requires forall j :: 0 <= j < |t| ==> next <= key(t[j])
    ensures Keyed(s + t, key, next')
  {
    var u := s + t;
    forall i | 0 <= i < |u| ensures 1 <= key(u[i]) < next' {
      if i < |s| { assert u[i] == s[i]; } else { assert u[i] == t[i - |s|]; }
    }
    forall i, j | 0 <= i < j < |u| ensures key(u[i]) < key(u[j]) {
      if j < |s| {
        assert u[i] == s[i] && u[j] == s[j];
      } else if i < |s| {
        assert u[i] == s[i] && u[j] == t[j - |s|];
      } else {
        assert u[i] == t[i - |s|] && u[j] == t[j - |s|];
      }
    }
  }

  lemma KeyedFilter<T(!new)>(s: seq<T>, p: T -> bool, key: T -> int, next: int)
    requires Keyed(s, key, next)
    ensures Keyed(Filter(s, p), key, next)
  {
    FilterKeepsIncreasing(s, p, key);
    var r := Filter(s, p);
    forall i | 0 <= i < |r| ensures 1 <= key(r[i]) < next {
      assert r[i] in s;
    }
  }

  predicate HasCategory(cats: seq<Category>, id: int)
  {
    exists c :: c in cats && c.id == id
  }

  predicate NameTaken(cats: seq<Category>, name: string)
  {
    exists c :: c in cats && c.name == name
  }

  predicate HasMedicine(meds: seq<Medicine>, id: int)
  {
    exists m :: m in meds && m.id == id
  }

  predicate HasBatch(bs: seq<Batch>, id: int)
  {
    exists b :: b in bs && b.id == id
  }

  /** UNIQUE(name) on categories. */
  ghost predicate NamesUnique(cats: seq<Category>)
  {
    DistinctBy(cats, CategoryName)
  }

  /** The row with that id, found by its primary key. */
  function FindCategory(cats: seq<Category>, id: int): (r: Option<Category>)
    ensures r.Some? <==> HasCategory(cats, id)
    ensures r.Some? ==> r.value in cats && r.value.id == id
    decreases |cats|
  {
    if cats == [] then None
    else if cats[0].id == id then Some(cats[0])
    else FindCategory(cats[1..], id)
  }

  function FindMedicine(meds: seq<Medicine>, id: int): (r: Option<Medicine>)
    ensures r.Some? <==> HasMedicine(meds, id)
    ensures r.Some? ==> r.value in meds && r.value.id == id
    decreases |meds|
  {
    if meds == [] then None
    else if meds[0].id == id then Some(meds[0])
    else FindMedicine(meds[1..], id)
  }

  function FindBatch(bs: seq<Batch>, id: int): (r: Option<Batch>)
    ensures r.Some? <==> HasBatch(bs, id)
    ensures r.Some? ==> r.value in bs && r.value.id == id
    decreases |bs|
  {
    if bs == [] then None
    else if bs[0].id == id then Some(bs[0])
    else FindBatch(bs[1..], id)
  }

  /** COALESCE(x, ''). */
  function OrEmpty(x: Option<string>): string
  {
    if x.Some? then x.value else ""
  }

  /** DATE(expiry_date): the day an expiry text denotes; NULL for a NULL or unparseable text. */
  function ExpiryDay(expiry: Option<string>): Option<Day>
  {
    if expiry.Some? then ParseDate(expiry.value) else None
  }

  /** The WHEN of both expiry triggers: DATE(NEW.expiry_date) <= DATE('now'). */
  predicate FlaggedExpired(expiry: Option<string>, today: Day)
  {
    ExpiryDay(expiry).Some? && ExpiryDay(expiry).value <= today
  }

  /**
   * DATE(expiry_date) BETWEEN DATE('now') AND DATE('now', '+days day'). A
   * window ending after 9999-12-31 makes the upper DATE() NULL, and then
   * BETWEEN holds for no row.
   */
  predicate ExpiresWithin(expiry: Option<string>, today: Day, days: int)
  {
    ExpiryDay(expiry).Some? && today + days <= LastDay && today <= ExpiryDay(expiry).value <= today + days
  }

  /** DATE(expiry_date) < DATE('now'). */
  predicate ExpiredBefore(expiry: Option<string>, today: Day)
  {
    ExpiryDay(expiry).Some? && ExpiryDay(expiry).value < today
  }

  /** ORDER BY expiry_date: NULL first, then texts in BINARY order. */
  predicate ExpiryLe(a: Option<string>, b: Option<string>)
  {
    a.None? || (b.Some? && LexLe(a.value, b.value))
  }

  lemma ExpiryLeTotal(a: Option<string>, b: Option<string>)
    ensures ExpiryLe(a, b) || ExpiryLe(b, a)
  {
    if a.Some? && b.Some? {
      LexLeTotal(a.value, b.value);
    }
  }

  lemma ExpiryLeTransitive(a: Option<string>, b: Option<string>, c: Option<string>)
    requires ExpiryLe(a, b) && ExpiryLe(b, c)
    ensures ExpiryLe(a, c)
  {
    if a.Some? {
      LexLeTransitive(a.value, b.value, c.value);
    }
  }

  // ---- rows written by the eight triggers ----

  /** log_medicine_insert. */
  function MedicineInsertLog(id: int, m: Medicine, ts: int): LogEntry
  {
    LogEntry(id, Insert, "medicines", m.id, m.name, ts)
  }

  /** log_medicine_update: the new row's name (COALESCE with '', but the name is NOT NULL). */
  function MedicineUpdateLog(id: int, m: Medicine, ts: int): LogEntry
  {
    LogEntry(id, Update, "medicines", m.id, m.name, ts)
  }

  /** log_medicine_delete: the old row's id and name. */
  function MedicineDeleteLog(id: int, m: Medicine, ts: int): LogEntry
  {
    LogEntry(id, Delete, "medicines", m.id, m.name, ts)
  }

  /** log_batch_insert: the batch number, '' when NULL. */
  function BatchInsertLog(id: int, b: Batch, ts: int): LogEntry
  {
    LogEntry(id, Insert, "batches", b.id, OrEmpty(b.batchNo), ts)
  }

  /** printf('qty:%s expiry:%s', COALESCE(NEW.quantity,''), COALESCE(NEW.expiry_date,'')). */
  function BatchUpdateDetails(quantity: Option<int>, expiry: Option<string>): string
  {
    "qty:" + (if quantity.Some? then IntToString(quantity.value) else "") + " expiry:" + OrEmpty(expiry)
  }

  /** log_batch_update. */
  function BatchUpdateLog(id: int, b: Batch, ts: int): LogEntry
  {
    LogEntry(id, Update, "batches", b.id, BatchUpdateDetails(b.quantity, b.expiry), ts)
  }

  /** log_batch_delete: the old row's id and batch number, '' when NULL. */
  function BatchDeleteLog(id: int, b: Batch, ts: int): LogEntry
  {
    LogEntry(id, Delete, "batches", b.id, OrEmpty(b.batchNo), ts)
  }

  /** detect_expiry_on_insert / detect_expiry_on_update: (NEW.id, DATE('now')), processed 0. */
  function ExpiredRow(id: int, b: Batch, today: Day): ExpiredItem
  {
    ExpiredItem(id, Some(b.id), today, 0)
  }

  /** One log_medicine_update row per medicine, with consecutive log ids. */
  function MedicineUpdateLogs(ms: seq<Medicine>, firstId: int, ts: int): (r: seq<LogEntry>)
    ensures |r| == |ms|
    ensures forall k :: 0 <= k < |ms| ==> r[k] == MedicineUpdateLog(firstId + k, ms[k], ts)
    decreases |ms|
  {
    if ms == [] then [] else [MedicineUpdateLog(firstId, ms[0], ts)] + MedicineUpdateLogs(ms[1..], firstId + 1, ts)
  }

  /** One log_batch_delete row per batch, with consecutive log ids. */
  function BatchDeleteLogs(bs: seq<Batch>, firstId: int, ts: int): (r: seq<LogEntry>)
    ensures |r| == |bs|
    ensures forall k :: 0 <= k < |bs| ==> r[k] == BatchDeleteLog(firstId + k, bs[k], ts)
    decreases |bs|
  {
    if bs == [] then [] else [BatchDeleteLog(firstId, bs[0], ts)] + BatchDeleteLogs(bs[1..], firstId + 1, ts)
  }

  // ---- the rows an ON DELETE action touches ----

  function MedicinesIn(meds: seq<Medicine>, cid: int): seq<Medicine>
  {
    Filter(meds, (m: Medicine) => m.categoryId == Some(cid))
  }

  function MedicinesExcept(meds: seq<Medicine>, mid: int): seq<Medicine>
  {
    Filter(meds, (m: Medicine) => m.id != mid)
  }

  function CategoriesExcept(cats: seq<Category>, cid: int): seq<Category>
  {
    Filter(cats, (c: Category) => c.id != cid)
  }

  /** The batches of one medicine, in rowid order. */
  function BatchesOf(bs: seq<Batch>, mid: int): seq<Batch>
  {
    Filter(bs, (b: Batch) => b.medicineId == mid)
  }

  function BatchesNotOf(bs: seq<Batch>, mid: int): seq<Batch>
  {
    Filter(bs, (b: Batch) => b.medicineId != mid)
  }

  function BatchesExcept(bs: seq<Batch>, bid: int): seq<Batch>
  {
    Filter(bs, (b: Batch) => b.id != bid)
  }

  /** expired_items rows whose batch is not one of those doomed by a delete. */
  function ExpiredNotOfMedicine(items: seq<ExpiredItem>, bs: seq<Batch>, mid: int): seq<ExpiredItem>
  {
    Filter(items, (e: ExpiredItem) => !(e.batchId.Some? && exists b :: b in bs && b.id == e.batchId.value && b.medicineId == mid))
  }

  function ExpiredNotOfBatch(items: seq<ExpiredItem>, bid: int): seq<ExpiredItem>
  {
    Filter(items, (e: ExpiredItem) => e.batchId != Some(bid))
  }

  /** ON DELETE SET NULL: medicines of that category lose it; every other field stays. */
  function ClearCategory(meds: seq<Medicine>, cid: int): (r: seq<Medicine>)
    ensures |r| == |meds|
    ensures forall i :: 0 <= i < |meds| ==>
      r[i] == if meds[i].categoryId == Some(cid) then meds[i].(categoryId := None) else meds[i]
  {
    seq(|meds|, i requires 0 <= i < |meds| =>
      if meds[i].categoryId == Some(cid) then meds[i].(categoryId := None) else meds[i])
  }
}
