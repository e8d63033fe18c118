/**
 * The read-only queries of models/batches.py: a medicine's batches, the
 * batches expiring within a window or already expired (joined with their
 * medicine's name), and the quantity in stock per month of expiry.
 */
module Batches {

  import opened Wrappers
  import opened Text
  import opened Dates
  import opened Seqs
  import opened Schema
  import opened Integrity

  /** Batch rows in ORDER BY expiry_date. */
  predicate BatchExpiryLe(a: Batch, b: Batch)
  {
    ExpiryLe(a.expiry, b.expiry)
  }

  lemma BatchExpiryOrder()
    ensures TotalPreorder(BatchExpiryLe)
  {
    forall a: Batch, b: Batch ensures BatchExpiryLe(a, b) || BatchExpiryLe(b, a) {
      ExpiryLeTotal(a.expiry, b.expiry);
    }
    forall a: Batch, b: Batch, c: Batch | BatchExpiryLe(a, b) && BatchExpiryLe(b, c) ensures BatchExpiryLe(a, c) {
      ExpiryLeTransitive(a.expiry, b.expiry, c.expiry);
    }
  }

  /** get_batches_for_medicine: SELECT * FROM batches WHERE medicine_id = mid ORDER BY expiry_date. */
  function BatchesForMedicine(bs: seq<Batch>, mid: int): (r: seq<Batch>)
    ensures multiset(r) == multiset(BatchesOf(bs, mid))
    ensures forall b :: b in r <==> b in bs && b.medicineId == mid
    ensures SortedBy(r, BatchExpiryLe)
  {
    BatchExpiryOrder();
    SortByIsSorted(BatchesOf(bs, mid), BatchExpiryLe);
    var mine := BatchesOf(bs, mid);
    var r := SortBy(mine, BatchExpiryLe);
    assert forall b :: b in r <==> b in mine by {
      forall b ensures b in r <==> b in mine {
        assert b in r <==> b in multiset(r);
        assert b in mine <==> b in multiset(mine);
      }
    }
    r
  }

  // ---------------- batches JOIN medicines ----------------

  /** A row of b.* with m.name AS med_name. */
  datatype NamedBatch = NamedBatch(batch: Batch, medName: string)

  /** The join rows of one batch: one per medicine row with its medicine_id. */
  function NamesFor(b: Batch, meds: seq<Medicine>): (r: seq<NamedBatch>)
    ensures forall x :: x in r <==> x.batch == b && exists m :: m in meds && m.id == b.medicineId && m.name == x.medName
    decreases |meds|
  {
    if meds == [] then []
    else
      var rest := NamesFor(b, meds[1..]);
      assert forall m :: m in meds <==> m == meds[0] || m in meds[1..];
      (if meds[0].id == b.medicineId then [NamedBatch(b, meds[0].name)] else []) + rest
  }

  /** FROM batches b JOIN medicines m ON m.id = b.medicine_id, in batch rowid order. */
  function JoinNames(bs: seq<Batch>, meds: seq<Medicine>): (r: seq<NamedBatch>)
    ensures forall x :: x in r <==> x.batch in bs && exists m :: m in meds && m.id == x.batch.medicineId && m.name == x.medName
    decreases |bs|
  {
    if bs == [] then []
    else
      assert forall b :: b in bs <==> b == bs[0] || b in bs[1..];
      NamesFor(bs[0], meds) + JoinNames(bs[1..], meds)
  }

  /** Every batch whose medicine exists has a join row. */
  lemma JoinNamesComplete(bs: seq<Batch>, meds: seq<Medicine>, b: Batch)
    requires b in bs && HasMedicine(meds, b.medicineId)
    ensures exists x :: x in JoinNames(bs, meds) && x.batch == b
  {
    var m :| m in meds && m.id == b.medicineId;
    assert NamedBatch(b, m.name) in JoinNames(bs, meds);
  }

  predicate NamedExpiryLe(a: NamedBatch, b: NamedBatch)
  {
    ExpiryLe(a.batch.expiry, b.batch.expiry)
  }

  lemma NamedExpiryOrder()
    ensures TotalPreorder(NamedExpiryLe)
  {
    forall a: NamedBatch, b: NamedBatch ensures NamedExpiryLe(a, b) || NamedExpiryLe(b, a) {
      ExpiryLeTotal(a.batch.expiry, b.batch.expiry);
    }
    forall a: NamedBatch, b: NamedBatch, c: NamedBatch | NamedExpiryLe(a, b) && NamedExpiryLe(b, c)
      ensures NamedExpiryLe(a, c)
    {
      ExpiryLeTransitive(a.batch.expiry, b.batch.expiry, c.batch.expiry);
    }
  }

  /** The join rows satisfying a WHERE on the batch's expiry, in ORDER BY b.expiry_date. */
  function ExpiryQuery(bs: seq<Batch>, meds: seq<Medicine>, keep: Option<string> -> bool): (r: seq<NamedBatch>)
    ensures forall x :: x in r <==> x in JoinNames(bs, meds) && keep(x.batch.expiry)
    ensures SortedBy(r, NamedExpiryLe)
  {
    var rows := Filter(JoinNames(bs, meds), (x: NamedBatch) => keep(x.batch.expiry));
    NamedExpiryOrder();
    SortByIsSorted(rows, NamedExpiryLe);
    var r := SortBy(rows, NamedExpiryLe);
    assert forall x :: x in r <==> x in multiset(r);
    r
  }

  /** soon_to_expire's default window. */
  const SoonDays := 30

  /**
   * soon_to_expire(days): DATE(b.expiry_date) BETWEEN DATE('now') AND DATE('now', '+days day').
   * Both a negative window and one ending after 9999-12-31 make the upper DATE() NULL.
   */
  function SoonToExpire(bs: seq<Batch>, meds: seq<Medicine>, today: Day, days: int): (r: seq<NamedBatch>)
    ensures forall x :: x in r <==> x in JoinNames(bs, meds) && ExpiresWithin(x.batch.expiry, today, days)
    ensures SortedBy(r, NamedExpiryLe)
    ensures days < 0 || today + days > LastDay ==> |r| == 0
  {
    var r := ExpiryQuery(bs, meds, (e: Option<string>) => ExpiresWithin(e, today, days));
    // with an empty window, or one whose end DATE() cannot write, no row qualifies, so r has no position at all
    assert days < 0 || today + days > LastDay ==> forall i :: 0 <= i < |r| ==> r[i] !in r;
    r
  }

  /** get_expired: DATE(b.expiry_date) < DATE('now'). */
  function GetExpired(bs: seq<Batch>, meds: seq<Medicine>, today: Day): (r: seq<NamedBatch>)
    ensures forall x :: x in r <==> x in JoinNames(bs, meds) && ExpiredBefore(x.batch.expiry, today)
    ensures SortedBy(r, NamedExpiryLe)
  {
    ExpiryQuery(bs, meds, (e: Option<string>) => ExpiredBefore(e, today))
  }

  /** A batch is never both expired and expiring soon, whatever the window. */
  lemma ExpiredNotSoon(bs: seq<Batch>, meds: seq<Medicine>, today: Day, days: int, x: NamedBatch)
    requires x in GetExpired(bs, meds, today)
    ensures x !in SoonToExpire(bs, meds, today, days)
  {
  }

  /**
   * With every batch's medicine present (the FOREIGN KEY), each batch in the
   * window is reported, with the name of its medicine.
   */
  lemma SoonToExpireComplete(bs: seq<Batch>, meds: seq<Medicine>, today: Day, days: int, b: Batch)
    requires MedicineRefs(bs, meds) && b in bs && ExpiresWithin(b.expiry, today, days)
    ensures exists x :: x in SoonToExpire(bs, meds, today, days) && x.batch == b
  {
    JoinNamesComplete(bs, meds, b);
  }

  lemma GetExpiredComplete(bs: seq<Batch>, meds: seq<Medicine>, today: Day, b: Batch)
    requires MedicineRefs(bs, meds) && b in bs && ExpiredBefore(b.expiry, today)
    ensures exists x :: x in GetExpired(bs, meds, today) && x.batch == b
  {
    JoinNamesComplete(bs, meds, b);
  }

  // ---------------- the expiry timeline ----------------

  /** SUM(quantity) with NULLs skipped, COALESCEd to 0 when every quantity is NULL. */
  function SumQuantity(bs: seq<Batch>): int
    decreases |bs|
  {
    if bs == [] then 0 else (if bs[0].quantity.Some? then bs[0].quantity.value else 0) + SumQuantity(bs[1..])
  }

  /** STRFTIME('%Y-%m', expiry_date) of a batch with an expiry text: NULL when it is not a date. */
  function MonthKey(b: Batch): Option<string>
  {
    if b.expiry.Some? then MonthOf(b.expiry.value) else None
  }

  /** ORDER BY month, strictly: the NULL group first, then months in BINARY order. */
  predicate MonthLt(a: Option<string>, b: Option<string>)
  {
    (a.None? && b.Some?) || (a.Some? && b.Some? && a.value != b.value && LexLe(a.value, b.value))
  }

  lemma MonthLtTrichotomy(a: Option<string>, b: Option<string>)
    ensures a == b || MonthLt(a, b) || MonthLt(b, a)
  {
    if a.Some? && b.Some? {
      LexLeTotal(a.value, b.value);
    }
  }

  lemma MonthLtTransitive(a: Option<string>, b: Option<string>, c: Option<string>)
    requires MonthLt(a, b) && MonthLt(b, c)
    ensures MonthLt(a, c)
  {
    if a.Some? {
      LexLeTransitive(a.value, b.value, c.value);
      if a.value == c.value {
        LexLeAntisymmetric(a.value, b.value);
      }
    }
  }

  ghost predicate StrictlyAscending(ks: seq<Option<string>>)
  {
    forall i, j :: 0 <= i < j < |ks| ==> MonthLt(ks[i], ks[j])
  }

  /** Adds a group key to an ascending list of distinct keys. */
  function InsertMonth(k: Option<string>, ks: seq<Option<string>>): (r: seq<Option<string>>)
    ensures forall x :: x in r <==> x == k || x in ks
    decreases |ks|
  {
    if ks == [] then [k]
    else if k == ks[0] then ks
    else if MonthLt(k, ks[0]) then [k] + ks
    else
      assert forall x :: x in ks <==> x == ks[0] || x in ks[1..];
      [ks[0]] + InsertMonth(k, ks[1..])
  }

  lemma {:induction false} InsertMonthAscending(k: Option<string>, ks: seq<Option<string>>)
    requires StrictlyAscending(ks)
    ensures StrictlyAscending(InsertMonth(k, ks))
    decreases |ks|
  {
    if ks != [] && k != ks[0] && MonthLt(k, ks[0]) {
      var r := [k] + ks;
      forall i, j | 0 <= i < j < |r| ensures MonthLt(r[i], r[j]) {
        if i == 0 && j > 1 {
          MonthLtTransitive(k, ks[0], ks[j - 1]);
        }
      }
    } else if ks != [] && k != ks[0] {
      MonthLtTrichotomy(k, ks[0]);
      assert StrictlyAscending(ks[1..]);
      InsertMonthAscending(k, ks[1..]);
      var tail := InsertMonth(k, ks[1..]);
      forall x | x in tail ensures MonthLt(ks[0], x) {
        if x != k {
          var j :| 0 <= j < |ks[1..]| && ks[1..][j] == x;
          assert ks[j + 1] == x;
        }
      }
    }
  }

  /** GROUP BY month ... ORDER BY month: the distinct month keys, ascending. */
  function Months(bs: seq<Batch>): (r: seq<Option<string>>)
    ensures forall k :: k in r <==> exists b :: b in bs && MonthKey(b) == k
    decreases |bs|
  {
    if bs == [] then []
    else
      assert forall b :: b in bs <==> b == bs[0] || b in bs[1..];
      InsertMonth(MonthKey(bs[0]), Months(bs[1..]))
  }

  lemma {:induction false} MonthsAscending(bs: seq<Batch>)
    ensures StrictlyAscending(Months(bs))
    decreases |bs|
  {
    if bs != [] {
      MonthsAscending(bs[1..]);
      InsertMonthAscending(MonthKey(bs[0]), Months(bs[1..]));
    }
  }

  /** The batches with an expiry text whose month key is k. */
  function InMonth(bs: seq<Batch>, k: Option<string>): seq<Batch>
  {
    Filter(bs, (b: Batch) => b.expiry.Some? && MonthKey(b) == k)
  }

  /** One row of get_expiry_timeline: a month (NULL for unparseable texts) and its total quantity. */
  datatype MonthTotal = MonthTotal(month: Option<string>, total: int)

  /** The month column of the timeline (the chart's labels). */
  function Labels(r: seq<MonthTotal>): (ks: seq<Option<string>>)
    ensures |ks| == |r| && forall i :: 0 <= i < |r| ==> ks[i] == r[i].month
  {
    seq(|r|, i requires 0 <= i < |r| => r[i].month)
  }

  /**
   * get_expiry_timeline: over the batches WHERE expiry_date IS NOT NULL, one
   * row per month key, in ascending order, with the month's total quantity.
   */
  function ExpiryTimeline(bs: seq<Batch>): (r: seq<MonthTotal>)
    ensures forall k :: k in Labels(r) <==> exists b :: b in bs && b.expiry.Some? && MonthKey(b) == k
    ensures forall i, j :: 0 <= i < j < |r| ==> MonthLt(r[i].month, r[j].month)
    ensures forall i :: 0 <= i < |r| ==> r[i].total == SumQuantity(InMonth(bs, r[i].month))
  {
    var dated := Filter(bs, (b: Batch) => b.expiry.Some?);
    var months := Months(dated);
    MonthsAscending(dated);
    var r := seq(|months|, i requires 0 <= i < |months| => MonthTotal(months[i], SumQuantity(InMonth(bs, months[i]))));
    assert Labels(r) == months;
    r
  }
}
