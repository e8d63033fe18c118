/**
 * The home page of app.py: the four headline counts, the rows of the
 * medicine_overview view in name order, the expiry status and display text
 * of each batch, and the loop that groups the rows into one card per
 * medicine with its batches, total quantity and next expiry.
 */
module Home {

  import opened Wrappers
  import opened Text
  import opened Dates
  import opened Seqs
  import opened Schema
  import opened Statements
  import opened Integrity
  import opened Medicines

  /** soon_threshold = today + timedelta(days=30). */
  const SoonWindow := 30

  // ---------------- one batch's status and display text ----------------

  datatype Status = Expired | Soon | Healthy | NoDate

  /** The status key the template turns into a CSS class. */
  function StatusKey(s: Status): string
  {
    match s
    case Expired => "expired"
    case Soon => "soon"
    case Healthy => "healthy"
    case NoDate => "no-date"
  }

  /** The label shown next to a batch. */
  function StatusLabel(s: Status): string
  {
    match s
    case Expired => "Expired"
    case Soon => "Expiring soon"
    case Healthy => "Fresh"
    case NoDate => "No expiry"
  }

  /**
   * `if expiry_text:` followed by strptime(expiry_text, "%Y-%m-%d"): a NULL or
   * empty text gives no date, and so does a text that does not parse.
   */
  function ParsedExpiry(expiry: Option<string>): (r: Option<Day>)
    ensures r.Some? ==> expiry.Some? && expiry.value != "" && ParseDate(expiry.value) == r
    ensures r == ExpiryDay(expiry)
  {
    if expiry.Some? && expiry.value != "" then ParseDate(expiry.value) else None
  }

  /** The status of a batch: each date falls in exactly one of the three windows; no date is its own case. */
  function Classify(expiry: Option<string>, today: Day): (s: Status)
    ensures s == NoDate <==> ParsedExpiry(expiry).None?
    ensures s == Expired <==> ParsedExpiry(expiry).Some? && ParsedExpiry(expiry).value < today
    ensures s == Soon <==> ParsedExpiry(expiry).Some? && today <= ParsedExpiry(expiry).value <= today + SoonWindow
    ensures s == Healthy <==> ParsedExpiry(expiry).Some? && today + SoonWindow < ParsedExpiry(expiry).value
  {
    var d := ParsedExpiry(expiry);
    if d.None? then NoDate
    else if d.value < today then Expired
    else if d.value <= today + SoonWindow then Soon
    else Healthy
  }

  /**
   * The page's status agrees with the SQL conditions of the expiry queries and
   * counts, on every day the page can be computed: when today + 30 days passes
   * 9999-12-31, `today + timedelta(days=30)` raises OverflowError instead.
   */
  lemma ClassifyAgreesWithQueries(expiry: Option<string>, today: Day)
    requires today + SoonWindow <= LastDay
    ensures Classify(expiry, today) == Expired <==> ExpiredBefore(expiry, today)
    ensures Classify(expiry, today) == Soon <==> ExpiresWithin(expiry, today, SoonWindow)
  {
  }

  /**
   * A batch that expires today is flagged by the expiry triggers (expiry on or
   * before today) but is shown as expiring soon, not as expired.
   */
  lemma ExpiringTodayIsSoonButFlagged(expiry: Option<string>, today: Day)
    requires ExpiryDay(expiry) == Some(today)
    ensures FlaggedExpired(expiry, today)
    ensures Classify(expiry, today) == Soon
  {
  }

  /** What the page prints: a day as strftime("%d %b %Y") renders it, or a text as it is. */
  datatype Shown = DateShown(day: Day) | TextShown(text: string)

  /** expiry_display: the parsed day, else the raw text, else "No expiry". */
  function ExpiryDisplay(expiry: Option<string>): (r: Shown)
    ensures r.DateShown? <==> ParsedExpiry(expiry).Some?
    ensures r.DateShown? ==> r.day == ParsedExpiry(expiry).value
    ensures expiry.None? || expiry == Some("") ==> r == TextShown("No expiry")
    ensures expiry.Some? && expiry.value != "" && ParsedExpiry(expiry).None? ==> r == TextShown(expiry.value)
  {
    var d := ParsedExpiry(expiry);
    if d.Some? then DateShown(d.value)
    else if expiry.Some? && expiry.value != "" then TextShown(expiry.value)
    else TextShown("No expiry")
  }

  // ---------------- the medicine_overview view ----------------

  datatype OverviewRow = OverviewRow(
    medicineId: int,
    medicineName: string,
    category: Option<string>,
    batchId: Option<int>,
    batchNo: Option<string>,
    quantity: Option<int>,
    expiry: Option<string>)

  /** The view's row for a medicine row joined with one of its batches. */
  function JoinedRow(mr: MedicineRow, b: Batch): OverviewRow
  {
    OverviewRow(mr.medicine.id, mr.medicine.name, mr.categoryName, Some(b.id), b.batchNo, b.quantity, b.expiry)
  }

  /** The view's rows for a medicine row joined with each of these batches, in their order. */
  function JoinedRows(mr: MedicineRow, bs: seq<Batch>): (r: seq<OverviewRow>)
    ensures |r| == |bs| && forall i :: 0 <= i < |bs| ==> r[i] == JoinedRow(mr, bs[i])
  {
    seq(|bs|, i requires 0 <= i < |bs| => JoinedRow(mr, bs[i]))
  }

  /**
   * LEFT JOIN batches b ON m.id = b.medicine_id, for one row of the
   * medicine-category join: one row per batch of the medicine, or a single row
   * whose batch columns are NULL when it has none.
   */
  function BatchJoin(mr: MedicineRow, bs: seq<Batch>): (r: seq<OverviewRow>)
    ensures |r| >= 1
    ensures forall x :: x in r ==>
      x.medicineId == mr.medicine.id && x.medicineName == mr.medicine.name && x.category == mr.categoryName
    ensures BatchesOf(bs, mr.medicine.id) == [] ==>
      r == [OverviewRow(mr.medicine.id, mr.medicine.name, mr.categoryName, None, None, None, None)]
    ensures BatchesOf(bs, mr.medicine.id) != [] ==>
      && |r| == |BatchesOf(bs, mr.medicine.id)|
      && forall i :: 0 <= i < |r| ==>
           var b := BatchesOf(bs, mr.medicine.id)[i];
           r[i].batchId == Some(b.id) && r[i].batchNo == b.batchNo && r[i].quantity == b.quantity && r[i].expiry == b.expiry
  {
    var mine := BatchesOf(bs, mr.medicine.id);
    if mine == [] then [OverviewRow(mr.medicine.id, mr.medicine.name, mr.categoryName, None, None, None, None)]
    else JoinedRows(mr, mine)
  }

  function OverviewJoin(mrs: seq<MedicineRow>, bs: seq<Batch>): seq<OverviewRow>
    decreases |mrs|
  {
    if mrs == [] then [] else BatchJoin(mrs[0], bs) + OverviewJoin(mrs[1..], bs)
  }

  /** Some row of the rows is about that medicine. */
  predicate Mentions(rows: seq<OverviewRow>, mid: int)
  {
    exists i :: 0 <= i < |rows| && rows[i].medicineId == mid
  }

  /** Some row of the medicine-category join is about that medicine. */
  predicate Lists(mrs: seq<MedicineRow>, mid: int)
  {
    exists k :: 0 <= k < |mrs| && mrs[k].medicine.id == mid
  }

  lemma MentionsAppend(a: seq<OverviewRow>, b: seq<OverviewRow>, mid: int)
    ensures Mentions(a + b, mid) <==> Mentions(a, mid) || Mentions(b, mid)
  {
    if Mentions(a + b, mid) {
      var i :| 0 <= i < |a + b| && (a + b)[i].medicineId == mid;
      if i >= |a| {
        assert b[i - |a|] == (a + b)[i];
      }
    }
    if Mentions(a, mid) {
      var i :| 0 <= i < |a| && a[i].medicineId == mid;
      assert (a + b)[i] == a[i];
    }
    if Mentions(b, mid) {
      var i :| 0 <= i < |b| && b[i].medicineId == mid;
      assert (a + b)[i + |a|] == b[i];
    }
  }

  lemma MentionsPermutation(a: seq<OverviewRow>, b: seq<OverviewRow>, mid: int)
    requires multiset(a) == multiset(b)
    ensures Mentions(a, mid) ==> Mentions(b, mid)
  {
    if Mentions(a, mid) {
      var i :| 0 <= i < |a| && a[i].medicineId == mid;
      assert a[i] in multiset(b);
      var j :| 0 <= j < |b| && b[j] == a[i];
    }
  }

  /** The view has rows about exactly the medicines of the join. */
  lemma {:induction false} OverviewJoinMentions(mrs: seq<MedicineRow>, bs: seq<Batch>, mid: int)
    ensures Mentions(OverviewJoin(mrs, bs), mid) <==> Lists(mrs, mid)
    decreases |mrs|
  {
    if mrs != [] {
      var head := BatchJoin(mrs[0], bs);
      OverviewJoinMentions(mrs[1..], bs, mid);
      MentionsAppend(head, OverviewJoin(mrs[1..], bs), mid);
      assert Mentions(head, mid) <==> mrs[0].medicine.id == mid by {
        assert head[0] in head;
        if Mentions(head, mid) {
          var i :| 0 <= i < |head| && head[i].medicineId == mid;
          assert head[i] in head;
        }
      }
      if Lists(mrs[1..], mid) {
        var k :| 0 <= k < |mrs[1..]| && mrs[1..][k].medicine.id == mid;
        assert mrs[k + 1] == mrs[1..][k];
      }
      if Lists(mrs, mid) && mrs[0].medicine.id != mid {
        var k :| 0 <= k < |mrs| && mrs[k].medicine.id == mid;
        assert mrs[1..][k - 1] == mrs[k];
      }
    }
  }

  /** SELECT * FROM medicine_overview. */
  function MedicineOverview(t: Tables): seq<OverviewRow>
  {
    OverviewJoin(LeftJoin(t.medicines, t.categories), t.batches)
  }

  /** ORDER BY medicine_name COLLATE NOCASE. */
  predicate OverviewNameLe(a: OverviewRow, b: OverviewRow)
  {
    NoCaseLe(a.medicineName, b.medicineName)
  }

  lemma OverviewNameOrder()
    ensures TotalPreorder(OverviewNameLe)
  {
    forall a: OverviewRow, b: OverviewRow ensures OverviewNameLe(a, b) || OverviewNameLe(b, a) {
      LexLeTotal(Fold(a.medicineName), Fold(b.medicineName));
    }
    forall a: OverviewRow, b: OverviewRow, c: OverviewRow | OverviewNameLe(a, b) && OverviewNameLe(b, c)
      ensures OverviewNameLe(a, c)
    {
      LexLeTransitive(Fold(a.medicineName), Fold(b.medicineName), Fold(c.medicineName));
    }
  }

  /** The overview query with an empty search box: every row of the view, in name order. */
  function HomeRows(t: Tables): (r: seq<OverviewRow>)
    ensures multiset(r) == multiset(MedicineOverview(t))
    ensures SortedBy(r, OverviewNameLe)
  {
    OverviewNameOrder();
    SortByIsSorted(MedicineOverview(t), OverviewNameLe);
    SortBy(MedicineOverview(t), OverviewNameLe)
  }

  /** In a consistent database the overview has rows for every medicine and for medicines only. */
  lemma HomeRowsCoverMedicines(t: Tables)
    requires Consistent(t)
    ensures forall mid :: Mentions(HomeRows(t), mid) <==> HasMedicine(t.medicines, mid)
  {
    LeftJoinOneRowEach(t.medicines, t.categories, t.nextCategoryId);
    var mrs := LeftJoin(t.medicines, t.categories);
    forall mid ensures Mentions(HomeRows(t), mid) <==> HasMedicine(t.medicines, mid) {
      MentionsPermutation(HomeRows(t), MedicineOverview(t), mid);
      MentionsPermutation(MedicineOverview(t), HomeRows(t), mid);
      OverviewJoinMentions(mrs, t.batches, mid);
      if Lists(mrs, mid) {
        var k :| 0 <= k < |mrs| && mrs[k].medicine.id == mid;
        assert t.medicines[k] in t.medicines;
      }
      if HasMedicine(t.medicines, mid) {
        var m :| m in t.medicines && m.id == mid;
        var k :| 0 <= k < |t.medicines| && t.medicines[k] == m;
        assert mrs[k].medicine.id == mid;
      }
    }
  }

  // ---------------- the cards ----------------

  /** `if r["batch_id"]:` — a row with a NULL (or zero) batch id adds no batch. */
  predicate HasBatchRow(r: OverviewRow)
  {
    r.batchId.Some? && r.batchId.value != 0
  }

  /** int(r["quantity"] or 0): a NULL quantity counts as 0. */
  function Qty(r: OverviewRow): (q: int)
    ensures r.quantity.None? ==> q == 0
    ensures r.quantity.Some? ==> q == r.quantity.value
  {
    if r.quantity.Some? then r.quantity.value else 0
  }

  /** One entry of a card's batch list. */
  datatype BatchView = BatchView(
    batchId: Option<int>,
    batchNo: Option<string>,
    qty: int,
    expiry: Option<string>,
    display: Shown,
    status: Status)

  function ViewOf(r: OverviewRow, today: Day): BatchView
  {
    BatchView(r.batchId, r.batchNo, Qty(r), r.expiry, ExpiryDisplay(r.expiry), Classify(r.expiry, today))
  }

  /** A card as the first loop leaves it in the dict. */
  datatype Draft = Draft(
    id: int,
    name: string,
    category: Option<string>,
    batches: seq<BatchView>,
    totalQty: int,
    nextExpiry: Option<Day>)

  /** A card as the page gets it, with next_expiry_display added by the second loop. */
  datatype Card = Card(draft: Draft, nextExpiryDisplay: Shown)

  /** The dict entry a medicine's first row creates. */
  function FreshDraft(r: OverviewRow): Draft
  {
    Draft(r.medicineId, r.medicineName, r.category, [], 0, None)
  }

  /** next_expiry_display: the day, or a dash when no batch has a date. */
  function NextExpiryShown(e: Option<Day>): (s: Shown)
    ensures s.DateShown? <==> e.Some?
    ensures e.Some? ==> s.day == e.value
    ensures e.None? ==> s == TextShown("—")
  {
    if e.Some? then DateShown(e.value) else TextShown("—")
  }

  /** The medicine ids in the order of their first row: the dict's order, hence the cards' order. */
  function FirstIds(rows: seq<OverviewRow>): (ids: seq<int>)
    ensures forall id :: id in ids <==> Mentions(rows, id)
    ensures forall i, j :: 0 <= i < j < |ids| ==> ids[i] != ids[j]
    decreases |rows|
  {
    if rows == [] then []
    else
      var pre := rows[..|rows| - 1];
      var p := FirstIds(pre);
      var mid := rows[|rows| - 1].medicineId;
      assert forall id :: Mentions(rows, id) <==> Mentions(pre, id) || id == mid by {
        forall id ensures Mentions(rows, id) <==> Mentions(pre, id) || id == mid {
          MentionsAppend(pre, [rows[|rows| - 1]], id);
          assert pre + [rows[|rows| - 1]] == rows;
          assert Mentions([rows[|rows| - 1]], id) <==> id == mid;
        }
      }
      if mid in p then p else p + [mid]
  }

  /** The row is about that medicine. */
  function Of(mid: int): OverviewRow -> bool
  {
    (r: OverviewRow) => r.medicineId == mid
  }

  /** The row is about that medicine and carries a batch. */
  function BatchOf(mid: int): OverviewRow -> bool
  {
    (r: OverviewRow) => r.medicineId == mid && HasBatchRow(r)
  }

  /** The rows of one medicine. */
  function RowsFor(rows: seq<OverviewRow>, mid: int): seq<OverviewRow>
  {
    Filter(rows, Of(mid))
  }

  /** The rows of one medicine that carry a batch. */
  function BatchRowsFor(rows: seq<OverviewRow>, mid: int): seq<OverviewRow>
  {
    Filter(rows, BatchOf(mid))
  }

  lemma RowsForMentioned(rows: seq<OverviewRow>, mid: int)
    requires Mentions(rows, mid)
    ensures RowsFor(rows, mid) != []
  {
    var i :| 0 <= i < |rows| && rows[i].medicineId == mid;
    assert rows[i] in RowsFor(rows, mid);
  }

  lemma RowsForUnmentioned(rows: seq<OverviewRow>, mid: int)
    requires !Mentions(rows, mid)
    ensures RowsFor(rows, mid) == [] && BatchRowsFor(rows, mid) == []
  {
    FilterNone(rows, Of(mid));
    FilterNone(rows, BatchOf(mid));
  }

  /** The batch list of a card: one view per batch row, in row order. */
  function Views(rs: seq<OverviewRow>, today: Day): (vs: seq<BatchView>)
    ensures |vs| == |rs|
    ensures forall i :: 0 <= i < |rs| ==> vs[i] == ViewOf(rs[i], today)
    decreases |rs|
  {
    if rs == [] then [] else Views(rs[..|rs| - 1], today) + [ViewOf(rs[|rs| - 1], today)]
  }

  /** total_qty, accumulated row by row. */
  function TotalQty(rs: seq<OverviewRow>): int
    decreases |rs|
  {
    if rs == [] then 0 else TotalQty(rs[..|rs| - 1]) + Qty(rs[|rs| - 1])
  }

  /** next_expiry, updated row by row when the row's date is earlier than the one so far. */
  function EarliestExpiry(rs: seq<OverviewRow>): Option<Day>
    decreases |rs|
  {
    if rs == [] then None
    else
      var p := EarliestExpiry(rs[..|rs| - 1]);
      var d := ParsedExpiry(rs[|rs| - 1].expiry);
      if d.Some? && (p.None? || d.value < p.value) then d else p
  }

  /** The running minimum is the least date among the rows, or None when no row has one. */
  lemma {:induction false} EarliestExpiryIsLeast(rs: seq<OverviewRow>)
    ensures var e := EarliestExpiry(rs);
      && (e.None? <==> forall i :: 0 <= i < |rs| ==> ParsedExpiry(rs[i].expiry).None?)
      && (e.Some? ==> exists i :: 0 <= i < |rs| && ParsedExpiry(rs[i].expiry) == e)
      && (e.Some? ==> forall i :: 0 <= i < |rs| && ParsedExpiry(rs[i].expiry).Some? ==>
            e.value <= ParsedExpiry(rs[i].expiry).value)
    decreases |rs|
  {
    if rs != [] {
      var pre := rs[..|rs| - 1];
      EarliestExpiryIsLeast(pre);
      assert forall i :: 0 <= i < |pre| ==> pre[i] == rs[i];
      var p := EarliestExpiry(pre);
      var d := ParsedExpiry(rs[|rs| - 1].expiry);
      if p.Some? {
        var k :| 0 <= k < |pre| && ParsedExpiry(pre[k].expiry) == p;
        assert ParsedExpiry(rs[k].expiry) == p;
      }
    }
  }

  /** The card of one medicine: named by its first row, holding its batch rows. */
  function DraftFor(rows: seq<OverviewRow>, mid: int, today: Day): Draft
    requires Mentions(rows, mid)
  {
    RowsForMentioned(rows, mid);
    var mine := RowsFor(rows, mid);
    var bat := BatchRowsFor(rows, mid);
    Draft(mid, mine[0].medicineName, mine[0].category, Views(bat, today), TotalQty(bat), EarliestExpiry(bat))
  }

  /** med_cards: one card per medicine id, in the order of each id's first row. */
  function Cards(rows: seq<OverviewRow>, today: Day): (cs: seq<Card>)
    ensures |cs| == |FirstIds(rows)|
    ensures forall i :: 0 <= i < |cs| ==> cs[i].draft.id == FirstIds(rows)[i]
    ensures forall i :: 0 <= i < |cs| ==> cs[i] == Card(DraftFor(rows, cs[i].draft.id, today), NextExpiryShown(cs[i].draft.nextExpiry))
  {
    var ids := FirstIds(rows);
    seq(|ids|, i requires 0 <= i < |ids| =>
      assert ids[i] in ids;
      var d := DraftFor(rows, ids[i], today);
      Card(d, NextExpiryShown(d.nextExpiry)))
  }

  // ---------------- one step of the grouping loop ----------------

  lemma FilterSnoc<T(!new)>(s: seq<T>, x: T, p: T -> bool)
    ensures Filter(s + [x], p) == Filter(s, p) + (if p(x) then [x] else [])
  {
    FilterAppend(s, [x], p);
    assert [x][1..] == [];
  }

  lemma RowsForSnoc(pre: seq<OverviewRow>, r: OverviewRow, mid: int)
    ensures RowsFor(pre + [r], mid) == RowsFor(pre, mid) + (if r.medicineId == mid then [r] else [])
    ensures BatchRowsFor(pre + [r], mid) == BatchRowsFor(pre, mid) + (if r.medicineId == mid && HasBatchRow(r) then [r] else [])
  {
    FilterSnoc(pre, r, Of(mid));
    FilterSnoc(pre, r, BatchOf(mid));
  }

  /** One more row at the end extends the batch list, the total and the earliest date by that row. */
  lemma SummariesSnoc(bat: seq<OverviewRow>, r: OverviewRow, today: Day)
    ensures Views(bat + [r], today) == Views(bat, today) + [ViewOf(r, today)]
    ensures TotalQty(bat + [r]) == TotalQty(bat) + Qty(r)
    ensures var e := ParsedExpiry(r.expiry); var p := EarliestExpiry(bat);
      EarliestExpiry(bat + [r]) == if e.Some? && (p.None? || e.value < p.value) then e else p
  {
    assert (bat + [r])[..|bat|] == bat;
  }

  /** A row of another medicine leaves a card as it was. */
  lemma StepOther(pre: seq<OverviewRow>, r: OverviewRow, mid: int, today: Day)
    requires mid != r.medicineId && Mentions(pre, mid)
    ensures Mentions(pre + [r], mid)
    ensures DraftFor(pre + [r], mid, today) == DraftFor(pre, mid, today)
  {
    MentionsAppend(pre, [r], mid);
    RowsForSnoc(pre, r, mid);
    assert RowsFor(pre + [r], mid) == RowsFor(pre, mid);
    assert BatchRowsFor(pre + [r], mid) == BatchRowsFor(pre, mid);
  }

  /** What a row does to its medicine's card: a row with a batch adds it, its quantity and its date. */
  function AddRow(d: Draft, r: OverviewRow, today: Day): Draft
  {
    var e := ParsedExpiry(r.expiry);
    if HasBatchRow(r) then
      d.(batches := d.batches + [ViewOf(r, today)],
         totalQty := d.totalQty + Qty(r),
         nextExpiry := if e.Some? && (d.nextExpiry.None? || e.value < d.nextExpiry.value) then e else d.nextExpiry)
    else d
  }

  /** A later row of a medicine that already has a card. */
  lemma StepKnown(pre: seq<OverviewRow>, r: OverviewRow, today: Day)
    requires Mentions(pre, r.medicineId)
    ensures Mentions(pre + [r], r.medicineId)
    ensures DraftFor(pre + [r], r.medicineId, today) == AddRow(DraftFor(pre, r.medicineId, today), r, today)
  {
    var mid := r.medicineId;
    MentionsAppend(pre, [r], mid);
    RowsForSnoc(pre, r, mid);
    RowsForMentioned(pre, mid);
    var mine := RowsFor(pre, mid);
    assert RowsFor(pre + [r], mid)[0] == mine[0];
    var bat := BatchRowsFor(pre, mid);
    SummariesSnoc(bat, r, today);
    if !HasBatchRow(r) {
      assert BatchRowsFor(pre + [r], mid) == bat;
    }
  }

  /** The first row of a medicine: a fresh card, with the row's batch if it has one. */
  lemma StepNew(pre: seq<OverviewRow>, r: OverviewRow, today: Day)
    requires !Mentions(pre, r.medicineId)
    ensures Mentions(pre + [r], r.medicineId)
    ensures DraftFor(pre + [r], r.medicineId, today) == AddRow(FreshDraft(r), r, today)
  {
    var mid := r.medicineId;
    MentionsAppend(pre, [r], mid);
    assert Mentions([r], mid) by { assert [r][0] == r; }
    RowsForSnoc(pre, r, mid);
    RowsForUnmentioned(pre, mid);
    assert RowsFor(pre + [r], mid) == [r];
    SummariesSnoc([], r, today);
    assert [] + [r] == [r];
    if HasBatchRow(r) {
      assert BatchRowsFor(pre + [r], mid) == [r];
    } else {
      assert BatchRowsFor(pre + [r], mid) == [];
    }
  }

  lemma FirstIdsSnoc(pre: seq<OverviewRow>, r: OverviewRow)
    ensures FirstIds(pre + [r]) == if r.medicineId in FirstIds(pre) then FirstIds(pre) else FirstIds(pre) + [r.medicineId]
  {
    assert (pre + [r])[..|pre + [r]| - 1] == pre;
  }

  // ---------------- what the cards promise ----------------

  /** Some card is about that medicine. */
  predicate HasCard(cs: seq<Card>, mid: int)
  {
    exists i :: 0 <= i < |cs| && cs[i].draft.id == mid
  }

  /** Each medicine id of the rows gets exactly one card, and no other card exists. */
  lemma CardsOnePerMedicine(rows: seq<OverviewRow>, today: Day)
    ensures forall i, j :: 0 <= i < j < |Cards(rows, today)| ==>
      Cards(rows, today)[i].draft.id != Cards(rows, today)[j].draft.id
    ensures forall mid :: HasCard(Cards(rows, today), mid) <==> Mentions(rows, mid)
  {
    var cs := Cards(rows, today);
    var ids := FirstIds(rows);
    forall mid ensures HasCard(cs, mid) <==> Mentions(rows, mid) {
      if Mentions(rows, mid) {
        assert mid in ids;
        var i :| 0 <= i < |ids| && ids[i] == mid;
        assert cs[i].draft.id == mid;
      }
      if HasCard(cs, mid) {
        var i :| 0 <= i < |cs| && cs[i].draft.id == mid;
        assert ids[i] in ids;
      }
    }
  }

  /** Sum of the qty entries of a batch list. */
  function SumQty(vs: seq<BatchView>): int
    decreases |vs|
  {
    if vs == [] then 0 else SumQty(vs[..|vs| - 1]) + vs[|vs| - 1].qty
  }

  lemma {:induction false} TotalQtyOfViews(rs: seq<OverviewRow>, today: Day)
    ensures TotalQty(rs) == SumQty(Views(rs, today))
    decreases |rs|
  {
    if rs != [] {
      TotalQtyOfViews(rs[..|rs| - 1], today);
      var vs := Views(rs, today);
      assert vs[..|vs| - 1] == Views(rs[..|rs| - 1], today);
    }
  }

  /**
   * A card's total is the sum of its batches' quantities (NULL as 0), its next
   * expiry is the earliest date shown among its batches, and it is None, shown
   * as a dash, exactly when none of its batches has a date.
   */
  lemma CardSummaries(rows: seq<OverviewRow>, today: Day, i: int)
    requires 0 <= i < |Cards(rows, today)|
    ensures var c := Cards(rows, today)[i];
      && c.draft.totalQty == SumQty(c.draft.batches)
      && (c.draft.nextExpiry.None? <==> forall v :: v in c.draft.batches ==> v.status == NoDate)
      && (c.draft.nextExpiry.Some? ==> exists v :: v in c.draft.batches && v.display == DateShown(c.draft.nextExpiry.value))
      && (c.draft.nextExpiry.Some? ==> forall v :: v in c.draft.batches && v.display.DateShown? ==>
            c.draft.nextExpiry.value <= v.display.day)
      && (c.nextExpiryDisplay == TextShown("—") <==> c.draft.nextExpiry.None?)
  {
    var ids := FirstIds(rows);
    assert ids[i] in ids;
    Summaries(BatchRowsFor(rows, ids[i]), today);
  }

  /** The summaries of a batch list agree with the list of views. */
  lemma Summaries(bat: seq<OverviewRow>, today: Day)
    ensures var vs := Views(bat, today); var e := EarliestExpiry(bat);
      && TotalQty(bat) == SumQty(vs)
      && (e.None? <==> forall v :: v in vs ==> v.status == NoDate)
      && (e.Some? ==> exists v :: v in vs && v.display == DateShown(e.value))
      && (e.Some? ==> forall v :: v in vs && v.display.DateShown? ==> e.value <= v.display.day)
  {
    TotalQtyOfViews(bat, today);
    var vs := Views(bat, today);
    assert forall v :: v in vs ==> exists k :: 0 <= k < |bat| && v == ViewOf(bat[k], today);
    var e := EarliestExpiry(bat);
    EarliestExpiryIsLeast(bat);
    if e.Some? {
      var k :| 0 <= k < |bat| && ParsedExpiry(bat[k].expiry) == e;
      assert vs[k] in vs;
    } else {
      assert forall v :: v in vs ==> v.status == NoDate;
    }
    if forall v :: v in vs ==> v.status == NoDate {
      forall k | 0 <= k < |bat| ensures ParsedExpiry(bat[k].expiry).None? {
        assert vs[k] in vs;
      }
    }
  }

  /** A row without a batch creates its medicine's card if it is the first, and changes no card. */
  lemma RowWithoutBatch(rows: seq<OverviewRow>, r: OverviewRow, today: Day)
    requires !HasBatchRow(r)
    ensures Mentions(rows + [r], r.medicineId)
    ensures !Mentions(rows, r.medicineId) ==> DraftFor(rows + [r], r.medicineId, today) == FreshDraft(r)
    ensures forall mid :: Mentions(rows, mid) ==>
      Mentions(rows + [r], mid) && DraftFor(rows + [r], mid, today) == DraftFor(rows, mid, today)
  {
    if Mentions(rows, r.medicineId) {
      StepKnown(rows, r, today);
    } else {
      StepNew(rows, r, today);
    }
    forall mid | Mentions(rows, mid)
      ensures Mentions(rows + [r], mid) && DraftFor(rows + [r], mid, today) == DraftFor(rows, mid, today)
    {
      if mid != r.medicineId {
        StepOther(rows, r, mid, today);
      }
    }
  }

  // ---------------- the headline counts ----------------

  datatype HomeStats = HomeStats(totalMedicines: nat, totalBatches: nat, upcomingExpiries: nat, expiredBatches: nat)

  /** The four COUNT(*) queries of home(). */
  function HeadlineStats(t: Tables, today: Day): (s: HomeStats)
    ensures s.totalMedicines == |t.medicines| && s.totalBatches == |t.batches|
    ensures s.upcomingExpiries + s.expiredBatches <= s.totalBatches
  {
    var upcoming := (b: Batch) => b.expiry.Some? && ExpiresWithin(b.expiry, today, SoonWindow);
    var expired := (b: Batch) => b.expiry.Some? && ExpiredBefore(b.expiry, today);
    CountDisjoint(t.batches, upcoming, expired);
    HomeStats(|t.medicines|, |t.batches|, Count(t.batches, upcoming), Count(t.batches, expired))
  }

  /**
   * The headline counts are the numbers of batches the cards show as expiring
   * soon and as expired (on the days the page can be computed, as above).
   */
  lemma HeadlineAgreesWithStatus(t: Tables, today: Day)
    requires today + SoonWindow <= LastDay
    ensures HeadlineStats(t, today).upcomingExpiries == Count(t.batches, (b: Batch) => Classify(b.expiry, today) == Soon)
    ensures HeadlineStats(t, today).expiredBatches == Count(t.batches, (b: Batch) => Classify(b.expiry, today) == Expired)
  {
    CountSame(t.batches, (b: Batch) => b.expiry.Some? && ExpiresWithin(b.expiry, today, SoonWindow),
              (b: Batch) => Classify(b.expiry, today) == Soon);
    CountSame(t.batches, (b: Batch) => b.expiry.Some? && ExpiredBefore(b.expiry, today),
              (b: Batch) => Classify(b.expiry, today) == Expired);
  }

  /** In a consistent database every medicine has exactly one card on the home page. */
  lemma OneCardPerMedicine(t: Tables, today: Day)
    requires Consistent(t)
    ensures forall mid :: HasCard(Cards(HomeRows(t), today), mid) <==> HasMedicine(t.medicines, mid)
  {
    HomeRowsCoverMedicines(t);
    CardsOnePerMedicine(HomeRows(t), today);
  }
}
