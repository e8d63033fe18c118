/**
 * The code of app.py's home() route: the loop that groups the overview rows
 * into the med_cards dict, the second loop that adds each card's next-expiry
 * text, and the four headline counts, all proved against the reference
 * definitions of Home.
 */
module HomePage {

  import opened Wrappers
  import opened Dates
  import opened Seqs
  import opened Schema
  import opened Statements
  import opened Integrity
  import opened Medicines
  import opened Home
  import Database

  // ---------------- the first loop ----------------

  /** The dict and its key order after the first loop has seen the rows. */
  datatype Groups = Groups(drafts: map<int, Draft>, order: seq<int>)

  /** The first loop of home() as a fold over the rows, last row last. */
  function Grouping(rows: seq<OverviewRow>, today: Day): Groups
    decreases |rows|
  {
    if rows == [] then Groups(map[], [])
    else
      var g := Grouping(rows[..|rows| - 1], today);
      var r := rows[|rows| - 1];
      if r.medicineId in g.drafts then Groups(g.drafts[r.medicineId := AddRow(g.drafts[r.medicineId], r, today)], g.order)
      else Groups(g.drafts[r.medicineId := AddRow(FreshDraft(r), r, today)], g.order + [r.medicineId])
  }

  /**
   * The first loop of home(): one dict entry per medicine id, created by its
   * first row; each row with a batch appends the batch, adds its quantity and
   * lowers the next expiry when its date is earlier.
   */
  method GroupRows(rows: seq<OverviewRow>, today: Day) returns (drafts: map<int, Draft>, order: seq<int>)
    ensures Grouped(rows, drafts, order, today)
  {
    drafts := map[];
    order := [];
    var i := 0;
    while i < |rows|
      invariant 0 <= i <= |rows|
      invariant Groups(drafts, order) == Grouping(rows[..i], today)
    {
      var r := rows[i];
      assert rows[..i + 1][..i] == rows[..i];
      // the entry is created by the medicine's first row, then updated in place
      var known := r.medicineId in drafts;
      var d := if known then drafts[r.medicineId] else FreshDraft(r);
      if !known {
        order := order + [r.medicineId];
      }
      d := Absorb(d, r, today);
      drafts := drafts[r.medicineId := d];
      i := i + 1;
    }
    assert rows[..|rows|] == rows;
    GroupingMeaning(rows, today);
  }

  /** The body of the loop for one row with a batch: append it, add its quantity, lower the next expiry. */
  method Absorb(d: Draft, r: OverviewRow, today: Day) returns (nd: Draft)
    ensures nd == AddRow(d, r, today)
  {
    nd := d;
    if HasBatchRow(r) {
      var e := ParsedExpiry(r.expiry);
      var next := d.nextExpiry;
      if e.Some? && (next.None? || e.value < next.value) {
        next := e;
      }
      nd := d.(batches := d.batches + [ViewOf(r, today)], totalQty := d.totalQty + Qty(r), nextExpiry := next);
    }
  }

  /** The dict and its key order hold the card of every medicine of the rows seen so far, in first-row order. */
  ghost predicate Grouped(done: seq<OverviewRow>, drafts: map<int, Draft>, order: seq<int>, today: Day)
  {
    && order == FirstIds(done)
    && (forall id :: id in drafts <==> id in order)
    && (forall id :: id in order ==> Mentions(done, id) && drafts[id] == DraftFor(done, id, today))
  }

  /** The fold builds exactly the cards the reference definition gives, keyed and ordered by first row. */
  lemma GroupingMeaning(rows: seq<OverviewRow>, today: Day)
    ensures Grouped(rows, Grouping(rows, today).drafts, Grouping(rows, today).order, today)
  {
    GroupingKeys(rows, today);
    forall id | id in Grouping(rows, today).order
      ensures Mentions(rows, id) && Grouping(rows, today).drafts[id] == DraftFor(rows, id, today)
    {
      GroupingEntry(rows, id, today);
    }
  }

  /** The key order is the order of first rows, and the dict has exactly those keys. */
  lemma {:induction false} GroupingKeys(rows: seq<OverviewRow>, today: Day)
    ensures Grouping(rows, today).order == FirstIds(rows)
    ensures forall id :: id in Grouping(rows, today).drafts <==> id in FirstIds(rows)
    decreases |rows|
  {
    if rows != [] {
      var pre := rows[..|rows| - 1];
      var r := rows[|rows| - 1];
      assert pre + [r] == rows;
      GroupingKeys(pre, today);
      FirstIdsSnoc(pre, r);
    }
  }

  /** The entry of a medicine of the rows is its reference card. */
  lemma {:induction false} GroupingEntry(rows: seq<OverviewRow>, mid: int, today: Day)
    requires Mentions(rows, mid)
    ensures mid in Grouping(rows, today).drafts
    ensures Grouping(rows, today).drafts[mid] == DraftFor(rows, mid, today)
    decreases |rows|
  {
    var pre := rows[..|rows| - 1];
    var r := rows[|rows| - 1];
    assert pre + [r] == rows;
    GroupingKeys(pre, today);
    MentionsAppend(pre, [r], mid);
    if r.medicineId == mid {
      if Mentions(pre, mid) {
        GroupingEntry(pre, mid, today);
        StepKnown(pre, r, today);
      } else {
        StepNew(pre, r, today);
      }
    } else {
      assert Mentions(pre, mid) by {
        assert !Mentions([r], mid) by { assert [r][0] == r; }
      }
      GroupingEntry(pre, mid, today);
      StepOther(pre, r, mid, today);
    }
  }

  // ---------------- the second loop and the page ----------------

  /** home(): the dict's values in insertion order, each with its next-expiry display text. */
  method BuildCards(rows: seq<OverviewRow>, today: Day) returns (cards: seq<Card>)
    ensures cards == Cards(rows, today)
  {
    var drafts, order := GroupRows(rows, today);
    ghost var want := Cards(rows, today);
    GroupedCards(rows, drafts, order, today);
    cards := [];
    var k := 0;
    while k < |order|
      invariant 0 <= k <= |order|
      invariant cards == want[..k]
    {
      var d := drafts[order[k]];
      cards := cards + [Card(d, NextExpiryShown(d.nextExpiry))];
      k := k + 1;
      assert want[..k] == want[..k - 1] + [want[k - 1]];
    }
    assert want[..k] == want;
  }

  /** The dict, read in key order, gives the reference cards one by one. */
  lemma GroupedCards(rows: seq<OverviewRow>, drafts: map<int, Draft>, order: seq<int>, today: Day)
    requires Grouped(rows, drafts, order, today)
    ensures |Cards(rows, today)| == |order|
    ensures forall k :: 0 <= k < |order| ==>
      order[k] in drafts && Cards(rows, today)[k] == Card(drafts[order[k]], NextExpiryShown(drafts[order[k]].nextExpiry))
  {
    forall k | 0 <= k < |order|
      ensures order[k] in drafts && Cards(rows, today)[k] == Card(drafts[order[k]], NextExpiryShown(drafts[order[k]].nextExpiry))
    {
      assert order[k] in order;
    }
  }

  /** home() with an empty search: the headline counts and the cards, read from the database. */
  method Render(db: Database.Store, today: Day) returns (stats: HomeStats, cards: seq<Card>)
    ensures stats == HeadlineStats(db.Snapshot(), today)
    ensures cards == Cards(HomeRows(db.Snapshot()), today)
  {
    var t := db.Snapshot();
    stats := HeadlineStats(t, today);
    cards := BuildCards(HomeRows(t), today);
  }
}
