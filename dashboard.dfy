/**
 * The dashboard page of app.py: the four totals, the number of batches per
 * category (a LEFT JOIN of categories, medicines and batches grouped by the
 * category's name) and the quantity per expiry month.
 */
module Dashboard {

  import opened Wrappers
  import opened Dates
  import opened Seqs
  import opened Schema
  import opened Statements
  import opened Integrity
  import opened Medicines
  import opened Batches
  import Home

  /** DATE('now', '+30 day'): the window of the soon_expire count. */
  const SoonWindow := 30

  /** The chart label of a category: its name, or "Uncategorized" when the name is empty (falsy). */
  function Label(name: string): (r: string)
    ensures r != ""
    ensures name != "" ==> r == name
    ensures name == "" ==> r == "Uncategorized"
  {
    if name == "" then "Uncategorized" else name
  }

  // ---------------- the category distribution ----------------

  /** The join condition for one medicine: m.category_id = c.id AND b.medicine_id = m.id. */
  function JoinedTo(m: Medicine, cid: int): Batch -> bool
  {
    (b: Batch) => m.categoryId == Some(cid) && b.medicineId == m.id
  }

  /**
   * COUNT(b.id) over one category's group of the LEFT JOIN: for each medicine
   * of the category the batches that join with it (a medicine without batches,
   * or a category without medicines, contributes a row whose b.id is NULL,
   * which COUNT skips).
   */
  function JoinedBatchCount(meds: seq<Medicine>, bs: seq<Batch>, cid: int): nat
    decreases |meds|
  {
    if meds == [] then 0 else Count(bs, JoinedTo(meds[0], cid)) + JoinedBatchCount(meds[1..], bs, cid)
  }

  /** The batch's medicine is in that category. */
  function InCategory(meds: seq<Medicine>, cid: int): Batch -> bool
  {
    (b: Batch) => FindMedicine(meds, b.medicineId).Some? && FindMedicine(meds, b.medicineId).value.categoryId == Some(cid)
  }

  /** The batch's medicine is in one of these categories. */
  function InSomeCategory(meds: seq<Medicine>, cs: seq<Category>): Batch -> bool
  {
    (b: Batch) => FindMedicine(meds, b.medicineId).Some? && FindMedicine(meds, b.medicineId).value.categoryId.Some?
      && HasCategory(cs, FindMedicine(meds, b.medicineId).value.categoryId.value)
  }

  /** The batch's medicine has no category. */
  function Uncategorised(meds: seq<Medicine>): Batch -> bool
  {
    (b: Batch) => FindMedicine(meds, b.medicineId).Some? && FindMedicine(meds, b.medicineId).value.categoryId.None?
  }

  /** One bar of the chart. */
  datatype CategoryCount = CategoryCount(caption: string, batchCount: nat)

  /** One group per category, in the order given. */
  function Distribution(meds: seq<Medicine>, bs: seq<Batch>, cs: seq<Category>): (r: seq<CategoryCount>)
    ensures |r| == |cs|
    ensures forall i :: 0 <= i < |cs| ==> r[i] == CategoryCount(Label(cs[i].name), JoinedBatchCount(meds, bs, cs[i].id))
    decreases |cs|
  {
    if cs == [] then []
    else [CategoryCount(Label(cs[0].name), JoinedBatchCount(meds, bs, cs[0].id))] + Distribution(meds, bs, cs[1..])
  }

  /** The sum of the bars. */
  function Total(r: seq<CategoryCount>): nat
    decreases |r|
  {
    if r == [] then 0 else r[0].batchCount + Total(r[1..])
  }

  /**
   * The category_rows of dashboard(): GROUP BY label, where the label is the
   * category's UNIQUE name, so one group per category, in name order.
   */
  function CategoryDistribution(t: Tables): (r: seq<CategoryCount>)
    ensures |r| == |t.categories|
  {
    Distribution(t.medicines, t.batches, GetAllCategories(t.categories))
  }

  /** With medicine ids distinct, a category's count is the number of batches whose medicine is in it. */
  lemma {:induction false} JoinedCountMeaning(meds: seq<Medicine>, bs: seq<Batch>, cid: int)
    requires IncreasingBy(meds, MedicineKey)
    ensures JoinedBatchCount(meds, bs, cid) == Count(bs, InCategory(meds, cid))
    decreases |meds|
  {
    if meds == [] {
      FilterNone(bs, InCategory(meds, cid));
    } else {
      var m := meds[0];
      var rest := meds[1..];
      assert IncreasingBy(rest, MedicineKey);
      JoinedCountMeaning(rest, bs, cid);
      assert forall x :: x in rest ==> x.id > m.id;
      assert !HasMedicine(rest, m.id);
      CountOr(bs, InCategory(meds, cid), JoinedTo(m, cid), InCategory(rest, cid));
    }
  }

  /** A category no medicine belongs to has a zero bar. */
  lemma {:induction false} EmptyCategoryZero(meds: seq<Medicine>, bs: seq<Batch>, cid: int)
    requires forall m :: m in meds ==> m.categoryId != Some(cid)
    ensures JoinedBatchCount(meds, bs, cid) == 0
    decreases |meds|
  {
    if meds != [] {
      assert meds[0] in meds;
      FilterNone(bs, JoinedTo(meds[0], cid));
      assert forall m :: m in meds[1..] ==> m in meds;
      EmptyCategoryZero(meds[1..], bs, cid);
    }
  }

  /** Over categories with distinct ids, the bars add up to the batches whose medicine is in one of them. */
  lemma {:induction false} DistributionTotal(meds: seq<Medicine>, bs: seq<Batch>, cs: seq<Category>)
    requires IncreasingBy(meds, MedicineKey)
    requires DistinctBy(cs, CategoryKey)
    ensures Total(Distribution(meds, bs, cs)) == Count(bs, InSomeCategory(meds, cs))
    decreases |cs|
  {
    if cs == [] {
      FilterNone(bs, InSomeCategory(meds, cs));
    } else {
      var c := cs[0];
      var rest := cs[1..];
      assert DistinctBy(rest, CategoryKey);
      DistributionTotal(meds, bs, rest);
      JoinedCountMeaning(meds, bs, c.id);
      assert Distribution(meds, bs, cs)[1..] == Distribution(meds, bs, rest);
      forall i | 0 <= i < |bs|
        ensures InSomeCategory(meds, cs)(bs[i]) <==> InCategory(meds, c.id)(bs[i]) || InSomeCategory(meds, rest)(bs[i])
        ensures !(InCategory(meds, c.id)(bs[i]) && InSomeCategory(meds, rest)(bs[i]))
      {
        SplitFirstCategory(meds, bs[i], cs);
      }
      CountOr(bs, InSomeCategory(meds, cs), InCategory(meds, c.id), InSomeCategory(meds, rest));
    }
  }

  /** A batch is in one of the categories iff it is in the first or in one of the others, never both. */
  lemma SplitFirstCategory(meds: seq<Medicine>, b: Batch, cs: seq<Category>)
    requires cs != [] && DistinctBy(cs, CategoryKey)
    ensures InSomeCategory(meds, cs)(b) <==> InCategory(meds, cs[0].id)(b) || InSomeCategory(meds, cs[1..])(b)
    ensures !(InCategory(meds, cs[0].id)(b) && InSomeCategory(meds, cs[1..])(b))
  {
    var c := cs[0];
    var rest := cs[1..];
    assert c in cs && forall x :: x in rest ==> x in cs;
    assert forall k :: 0 <= k < |rest| ==> rest[k].id != c.id;
    var m := FindMedicine(meds, b.medicineId);
    if m.Some? && m.value.categoryId.Some? && HasCategory(cs, m.value.categoryId.value) {
      var x :| x in cs && x.id == m.value.categoryId.value;
      if x != c {
        var k :| 0 <= k < |cs| && cs[k] == x;
        assert rest[k - 1] == x;
      }
    }
  }

  /** The name listing has distinct ids: two entries with one id would be one category with two names. */
  lemma ListingIdsDistinct(t: Tables)
    requires Consistent(t)
    ensures DistinctBy(GetAllCategories(t.categories), CategoryKey)
  {
    var cats := t.categories;
    var r := GetAllCategories(cats);
    GetAllCategoriesStrict(cats);
    forall i, j | 0 <= i < j < |r| ensures r[i].id != r[j].id {
      assert r[i] in multiset(cats) && r[j] in multiset(cats);
      var a :| 0 <= a < |cats| && cats[a] == r[i];
      var b :| 0 <= b < |cats| && cats[b] == r[j];
      if a != b {
        assert a < b ==> cats[a].id < cats[b].id;
        assert b < a ==> cats[b].id < cats[a].id;
      }
    }
  }

  /** In a consistent database each bar counts exactly the batches of that category's medicines. */
  lemma CategoryCountMeaning(t: Tables, i: int)
    requires Consistent(t)
    requires 0 <= i < |t.categories|
    ensures var c := GetAllCategories(t.categories)[i];
      && CategoryDistribution(t)[i].caption == Label(c.name)
      && CategoryDistribution(t)[i].batchCount == Count(t.batches, InCategory(t.medicines, c.id))
  {
    JoinedCountMeaning(t.medicines, t.batches, GetAllCategories(t.categories)[i].id);
  }

  /** A category without medicines is listed with count 0. */
  lemma EmptyCategoryListedZero(t: Tables, i: int)
    requires 0 <= i < |t.categories|
    requires forall m :: m in t.medicines ==> m.categoryId != Some(GetAllCategories(t.categories)[i].id)
    ensures CategoryDistribution(t)[i].batchCount == 0
  {
    EmptyCategoryZero(t.medicines, t.batches, GetAllCategories(t.categories)[i].id);
  }

  /** In a consistent database a batch's medicine exists and is in a listed category or in none. */
  lemma CategorisedOrNot(t: Tables, b: Batch)
    requires Consistent(t)
    requires b in t.batches
    ensures InSomeCategory(t.medicines, GetAllCategories(t.categories))(b) || Uncategorised(t.medicines)(b)
  {
    var m := FindMedicine(t.medicines, b.medicineId);
    if m.value.categoryId.Some? {
      var x :| x in t.categories && x.id == m.value.categoryId.value;
      assert x in multiset(GetAllCategories(t.categories));
    }
  }

  /**
   * In a consistent database every batch of a categorised medicine is counted
   * in exactly one bar and the batches of uncategorised medicines in none: the
   * bars and the uncategorised batches add up to all batches.
   */
  lemma EveryBatchCountedOnce(t: Tables)
    requires Consistent(t)
    ensures Total(CategoryDistribution(t)) + Count(t.batches, Uncategorised(t.medicines)) == |t.batches|
  {
    var cs := GetAllCategories(t.categories);
    ListingIdsDistinct(t);
    DistributionTotal(t.medicines, t.batches, cs);
    var all := (b: Batch) => true;
    forall i | 0 <= i < |t.batches|
      ensures all(t.batches[i]) <==> InSomeCategory(t.medicines, cs)(t.batches[i]) || Uncategorised(t.medicines)(t.batches[i])
    {
      assert t.batches[i] in t.batches;
      CategorisedOrNot(t, t.batches[i]);
    }
    CountOr(t.batches, all, InSomeCategory(t.medicines, cs), Uncategorised(t.medicines));
    FilterAll(t.batches, all);
  }

  // ---------------- the page ----------------

  datatype DashboardView = DashboardView(
    totalMedicines: nat,
    totalBatches: nat,
    soonExpire: nat,
    expiredCount: nat,
    categoryLabels: seq<string>,
    categoryCounts: seq<nat>,
    timeLabels: seq<Option<string>>,
    timeTotals: seq<int>)

  /** expiry_date BETWEEN DATE('now') AND DATE('now', '+30 day'). */
  function DueSoon(today: Day): Batch -> bool
  {
    (b: Batch) => ExpiresWithin(b.expiry, today, SoonWindow)
  }

  /** dashboard(): the totals, the two columns of the category rows and of the timeline rows. */
  function DashboardOf(t: Tables, today: Day): (v: DashboardView)
    ensures v.totalMedicines == |t.medicines| && v.totalBatches == |t.batches|
    ensures v.expiredCount == |t.expiredItems|
    ensures v.soonExpire == |Filter(t.batches, DueSoon(today))| && v.soonExpire <= v.totalBatches
    ensures |v.categoryLabels| == |v.categoryCounts| == |t.categories|
    ensures forall i :: 0 <= i < |t.categories| ==>
      && v.categoryLabels[i] == Label(GetAllCategories(t.categories)[i].name)
      && v.categoryCounts[i] == JoinedBatchCount(t.medicines, t.batches, GetAllCategories(t.categories)[i].id)
    ensures |v.timeLabels| == |v.timeTotals|
    ensures forall k :: k in v.timeLabels <==> exists b :: b in t.batches && b.expiry.Some? && MonthKey(b) == k
    ensures forall i, j :: 0 <= i < j < |v.timeLabels| ==> MonthLt(v.timeLabels[i], v.timeLabels[j])
    ensures forall i :: 0 <= i < |v.timeTotals| ==> v.timeTotals[i] == SumQuantity(InMonth(t.batches, v.timeLabels[i]))
  {
    var dist := CategoryDistribution(t);
    var timeline := ExpiryTimeline(t.batches);
    var soon := Count(t.batches, DueSoon(today));
    DashboardView(
      |t.medicines|, |t.batches|, soon, |t.expiredItems|,
      Captions(dist), BatchCounts(dist), Labels(timeline), Totals(timeline))
  }

  /** The bar labels of the chart. */
  function Captions(dist: seq<CategoryCount>): (r: seq<string>)
    ensures |r| == |dist| && forall i :: 0 <= i < |dist| ==> r[i] == dist[i].caption
  {
    seq(|dist|, i requires 0 <= i < |dist| => dist[i].caption)
  }

  /** The bar heights of the chart. */
  function BatchCounts(dist: seq<CategoryCount>): (r: seq<nat>)
    ensures |r| == |dist| && forall i :: 0 <= i < |dist| ==> r[i] == dist[i].batchCount
  {
    seq(|dist|, i requires 0 <= i < |dist| => dist[i].batchCount)
  }

  /** The timeline's values, month by month. */
  function Totals(timeline: seq<MonthTotal>): (r: seq<int>)
    ensures |r| == |timeline| && forall i :: 0 <= i < |timeline| ==> r[i] == timeline[i].total
  {
    seq(|timeline|, i requires 0 <= i < |timeline| => timeline[i].total)
  }

  /** With medicine ids distinct each bar counts the batches whose medicine is in that category. */
  lemma DashboardCountsMeaning(t: Tables, today: Day, i: int)
    requires Consistent(t)
    requires 0 <= i < |t.categories|
    ensures DashboardOf(t, today).categoryCounts[i] ==
      Count(t.batches, InCategory(t.medicines, GetAllCategories(t.categories)[i].id))
  {
    JoinedCountMeaning(t.medicines, t.batches, GetAllCategories(t.categories)[i].id);
  }

  /** The dashboard's soon count agrees with the upcoming count of the home page. */
  lemma SoonMatchesHome(t: Tables, today: Day)
    ensures DashboardOf(t, today).soonExpire == Home.HeadlineStats(t, today).upcomingExpiries
  {
    CountSame(t.batches, DueSoon(today),
              (b: Batch) => b.expiry.Some? && ExpiresWithin(b.expiry, today, Home.SoonWindow));
  }
}
