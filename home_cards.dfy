/**
 * What a home-page card says about the batches table itself. The cards are
 * built from the rows of medicine_overview in name order; these lemmas follow
 * a medicine's batch rows back through that ordering and the view's LEFT JOIN
 * to the medicine's batches, so that total_qty and next_expiry are facts about
 * the batches table and not only about the rows the loop read.
 */
module HomeCards {

  import opened Wrappers
  import opened Dates
  import opened Seqs
  import opened Schema
  import opened Statements
  import opened Integrity
  import opened Medicines
  import opened Batches
  import opened Home

  // ---------------- total_qty does not depend on the row order ----------------

  lemma {:induction false} TotalQtyAppend(u: seq<OverviewRow>, v: seq<OverviewRow>)
    ensures TotalQty(u + v) == TotalQty(u) + TotalQty(v)
    decreases |v|
  {
    if v == [] {
      assert u + v == u;
    } else {
      var v' := v[..|v| - 1];
      TotalQtyAppend(u, v');
      assert (u + v)[..|u + v| - 1] == u + v';
    }
  }

  /** Taking one row out of the middle takes its quantity out of the total. */
  lemma TotalQtyRemove(b: seq<OverviewRow>, k: int)
    requires 0 <= k < |b|
    ensures TotalQty(b) == TotalQty(b[..k] + b[k + 1..]) + Qty(b[k])
  {
    assert b == b[..k] + [b[k]] + b[k + 1..];
    TotalQtyAppend(b[..k] + [b[k]], b[k + 1..]);
    TotalQtyAppend(b[..k], [b[k]]);
    TotalQtyAppend(b[..k], b[k + 1..]);
    assert TotalQty([b[k]]) == Qty(b[k]) by { assert [b[k]][..0] == []; }
  }

  lemma MultisetRemove(b: seq<OverviewRow>, k: int)
    requires 0 <= k < |b|
    ensures multiset(b) == multiset(b[..k] + b[k + 1..]) + multiset{b[k]}
  {
    assert b == b[..k] + [b[k]] + b[k + 1..];
    calc {
      multiset(b);
      multiset(b[..k]) + multiset{b[k]} + multiset(b[k + 1..]);
      multiset(b[..k] + b[k + 1..]) + multiset{b[k]};
    }
  }

  /** Two orderings of the same rows have the same total. */
  lemma {:induction false} TotalQtyPermutation(a: seq<OverviewRow>, b: seq<OverviewRow>)
    requires multiset(a) == multiset(b)
    ensures TotalQty(a) == TotalQty(b)
    decreases |a|
  {
    if a == [] {
      assert |b| == |multiset(b)| == 0;
    } else {
      var x := a[|a| - 1];
      var a' := a[..|a| - 1];
      assert a == a' + [x];
      assert multiset(a) == multiset(a') + multiset{x};
      assert x in multiset(b);
      var k :| 0 <= k < |b| && b[k] == x;
      var b' := b[..k] + b[k + 1..];
      MultisetRemove(b, k);
      assert multiset(a') == multiset(a) - multiset{x};
      assert multiset(b') == multiset(b) - multiset{x};
      TotalQtyPermutation(a', b');
      TotalQtyRemove(b, k);
    }
  }

  /** The joined rows of a medicine's batches total the batches' quantities, NULL as 0. */
  lemma {:induction false} TotalQtyOfJoined(mr: MedicineRow, bs: seq<Batch>)
    ensures TotalQty(JoinedRows(mr, bs)) == SumQuantity(bs)
    decreases |bs|
  {
    if bs != [] {
      TotalQtyOfJoined(mr, bs[1..]);
      var j := JoinedRows(mr, bs);
      assert j == [JoinedRow(mr, bs[0])] + JoinedRows(mr, bs[1..]);
      TotalQtyAppend([JoinedRow(mr, bs[0])], JoinedRows(mr, bs[1..]));
      assert TotalQty([JoinedRow(mr, bs[0])]) == Qty(JoinedRow(mr, bs[0])) by {
        assert [JoinedRow(mr, bs[0])][..0] == [];
      }
    }
  }

  // ---------------- a medicine's batch rows in the view ----------------

  /** The batch rows one medicine row contributes to the view: its joined batches, or none. */
  lemma BatchJoinBatchRows(mr: MedicineRow, bs: seq<Batch>, mid: int)
    requires forall b :: b in bs ==> b.id != 0
    ensures Filter(BatchJoin(mr, bs), BatchOf(mid)) ==
      if mr.medicine.id == mid then JoinedRows(mr, BatchesOf(bs, mid)) else []
  {
    var rows := BatchJoin(mr, bs);
    var mine := BatchesOf(bs, mr.medicine.id);
    if mr.medicine.id != mid {
      forall i | 0 <= i < |rows| ensures !BatchOf(mid)(rows[i]) {
        assert rows[i] in rows;
      }
      FilterNone(rows, BatchOf(mid));
    } else if mine == [] {
      FilterNone(rows, BatchOf(mid));
    } else {
      forall i | 0 <= i < |rows| ensures BatchOf(mid)(rows[i]) {
        assert mine[i] in mine;
      }
      FilterAll(rows, BatchOf(mid));
    }
  }

  /** With increasing ids the first medicine is the only one with its id; the rest keep increasing. */
  lemma FirstMedicine(meds: seq<Medicine>, mid: int)
    requires IncreasingBy(meds, MedicineKey)
    requires meds != []
    ensures IncreasingBy(meds[1..], MedicineKey)
    ensures meds[0].id == mid ==> !HasMedicine(meds[1..], mid) && FindMedicine(meds, mid) == Some(meds[0])
    ensures meds[0].id != mid ==>
      (HasMedicine(meds, mid) <==> HasMedicine(meds[1..], mid)) && FindMedicine(meds, mid) == FindMedicine(meds[1..], mid)
  {
    forall i, j | 0 <= i < j < |meds[1..]| ensures MedicineKey(meds[1..][i]) < MedicineKey(meds[1..][j]) {
      assert meds[1..][i] == meds[i + 1] && meds[1..][j] == meds[j + 1];
    }
    if meds[0].id == mid {
      forall m | m in meds[1..] ensures m.id != mid {
        var j :| 0 <= j < |meds[1..]| && meds[1..][j] == m;
        assert MedicineKey(meds[0]) < MedicineKey(meds[j + 1]);
      }
    } else {
      if HasMedicine(meds, mid) {
        var m :| m in meds && m.id == mid;
        var j :| 0 <= j < |meds| && meds[j] == m;
        assert meds[1..][j - 1] == m;
      }
      if HasMedicine(meds[1..], mid) {
        var m :| m in meds[1..] && m.id == mid;
        assert m in meds;
      }
    }
  }

  /** With increasing medicine ids the view's batch rows of a medicine are exactly its joined batches. */
  lemma {:induction false} OverviewBatchRows(meds: seq<Medicine>, cats: seq<Category>, bs: seq<Batch>, mid: int)
    requires IncreasingBy(meds, MedicineKey)
    requires forall b :: b in bs ==> b.id != 0
    ensures Filter(OverviewJoin(RowsOf(meds, cats), bs), BatchOf(mid)) ==
      if HasMedicine(meds, mid) then JoinedRows(RowOf(FindMedicine(meds, mid).value, cats), BatchesOf(bs, mid)) else []
    decreases |meds|
  {
    if meds != [] {
      var mrs := RowsOf(meds, cats);
      var rest := RowsOf(meds[1..], cats);
      assert mrs[1..] == rest;
      FirstMedicine(meds, mid);
      OverviewBatchRows(meds[1..], cats, bs, mid);
      assert OverviewJoin(mrs, bs) == BatchJoin(mrs[0], bs) + OverviewJoin(rest, bs);
      FilterAppend(BatchJoin(mrs[0], bs), OverviewJoin(rest, bs), BatchOf(mid));
      BatchJoinBatchRows(mrs[0], bs, mid);
    }
  }

  // ---------------- from the rows of the card to the batches ----------------

  /** More rows can only bring next_expiry earlier. */
  lemma EarliestOfMore(a: seq<OverviewRow>, b: seq<OverviewRow>)
    requires forall x :: x in a ==> x in b
    ensures EarliestExpiry(a).Some? ==> EarliestExpiry(b).Some? && EarliestExpiry(b).value <= EarliestExpiry(a).value
  {
    var ea := EarliestExpiry(a);
    if ea.Some? {
      EarliestExpiryIsLeast(a);
      var i :| 0 <= i < |a| && ParsedExpiry(a[i].expiry) == ea;
      assert a[i] in b;
      var k :| 0 <= k < |b| && b[k] == a[i];
      EarliestExpiryIsLeast(b);
    }
  }

  /** next_expiry depends only on which rows there are, not on their order. */
  lemma EarliestSameRows(a: seq<OverviewRow>, b: seq<OverviewRow>)
    requires forall x :: x in a <==> x in b
    ensures EarliestExpiry(a) == EarliestExpiry(b)
  {
    EarliestOfMore(a, b);
    EarliestOfMore(b, a);
  }

  /** next_expiry over the joined rows of some batches is the least date among the batches. */
  lemma EarliestOfBatches(mr: MedicineRow, bs: seq<Batch>)
    ensures var e := EarliestExpiry(JoinedRows(mr, bs));
      && (e.None? <==> forall b :: b in bs ==> ParsedExpiry(b.expiry).None?)
      && (e.Some? ==> exists b :: b in bs && ParsedExpiry(b.expiry) == e)
      && (e.Some? ==> forall b :: b in bs && ParsedExpiry(b.expiry).Some? ==> e.value <= ParsedExpiry(b.expiry).value)
  {
    var j := JoinedRows(mr, bs);
    EarliestExpiryIsLeast(j);
    assert forall i :: 0 <= i < |bs| ==> j[i].expiry == bs[i].expiry;
    forall b | b in bs ensures exists i :: 0 <= i < |j| && j[i].expiry == b.expiry {
      var k :| 0 <= k < |bs| && bs[k] == b;
      assert j[k].expiry == b.expiry;
    }
    if EarliestExpiry(j).Some? {
      var i :| 0 <= i < |j| && ParsedExpiry(j[i].expiry) == EarliestExpiry(j);
      assert bs[i] in bs;
    }
  }

  /** The same, for the joined rows in any order. */
  lemma EarliestOfJoined(bat: seq<OverviewRow>, mr: MedicineRow, bs: seq<Batch>)
    requires multiset(bat) == multiset(JoinedRows(mr, bs))
    ensures var e := EarliestExpiry(bat);
      && (e.None? <==> forall b :: b in bs ==> ParsedExpiry(b.expiry).None?)
      && (e.Some? ==> exists b :: b in bs && ParsedExpiry(b.expiry) == e)
      && (e.Some? ==> forall b :: b in bs && ParsedExpiry(b.expiry).Some? ==> e.value <= ParsedExpiry(b.expiry).value)
  {
    var j := JoinedRows(mr, bs);
    forall x ensures x in bat <==> x in j {
      assert x in bat <==> x in multiset(bat);
      assert x in j <==> x in multiset(j);
    }
    EarliestSameRows(bat, j);
    EarliestOfBatches(mr, bs);
  }

  /** In a consistent database a medicine's batch rows on the home page are its joined batches, reordered. */
  lemma HomeBatchRows(t: Tables, mid: int)
    requires Consistent(t)
    requires HasMedicine(t.medicines, mid)
    ensures multiset(BatchRowsFor(HomeRows(t), mid)) ==
      multiset(JoinedRows(RowOf(FindMedicine(t.medicines, mid).value, t.categories), BatchesOf(t.batches, mid)))
  {
    forall b | b in t.batches ensures b.id != 0 {
      var k :| 0 <= k < |t.batches| && t.batches[k] == b;
    }
    LeftJoinOneRowEach(t.medicines, t.categories, t.nextCategoryId);
    OverviewBatchRows(t.medicines, t.categories, t.batches, mid);
    FilterPermutation(HomeRows(t), MedicineOverview(t), BatchOf(mid));
  }

  /**
   * In a consistent database each home-page card lists one entry per batch of
   * its medicine; its total_qty is the sum of those batches' quantities (NULL
   * as 0) and its next_expiry is the earliest date among them, None exactly
   * when none of them has one.
   */
  lemma CardOfBatches(t: Tables, today: Day, i: int)
    requires Consistent(t)
    requires 0 <= i < |Cards(HomeRows(t), today)|
    ensures var c := Cards(HomeRows(t), today)[i]; var bs := BatchesOf(t.batches, c.draft.id);
      && HasMedicine(t.medicines, c.draft.id)
      && |c.draft.batches| == |bs|
      && c.draft.totalQty == SumQuantity(bs)
      && (c.draft.nextExpiry.None? <==> forall b :: b in bs ==> ParsedExpiry(b.expiry).None?)
      && (c.draft.nextExpiry.Some? ==> exists b :: b in bs && ParsedExpiry(b.expiry) == c.draft.nextExpiry)
      && (c.draft.nextExpiry.Some? ==> forall b :: b in bs && ParsedExpiry(b.expiry).Some? ==>
            c.draft.nextExpiry.value <= ParsedExpiry(b.expiry).value)
  {
    var rows := HomeRows(t);
    var mid := Cards(rows, today)[i].draft.id;
    assert FirstIds(rows)[i] in FirstIds(rows);
    HomeRowsCoverMedicines(t);
    var bat := BatchRowsFor(rows, mid);
    var mr := RowOf(FindMedicine(t.medicines, mid).value, t.categories);
    var bs := BatchesOf(t.batches, mid);
    HomeBatchRows(t, mid);
    assert |bat| == |multiset(bat)| == |multiset(JoinedRows(mr, bs))| == |bs|;
    TotalQtyPermutation(bat, JoinedRows(mr, bs));
    TotalQtyOfJoined(mr, bs);
    EarliestOfJoined(bat, mr, bs);
  }
}
