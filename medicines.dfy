/**
 * The read-only queries of models/medicines.py and models/categories.py:
 * the medicine list with each medicine's category name, one medicine by id,
 * and the category list.
 */
module Medicines {

  import opened Wrappers
  import opened Text
  import opened Seqs
  import opened Schema
  import opened Statements
  import opened Integrity

  /** A row of m.* with c.name AS category_name. */
  datatype MedicineRow = MedicineRow(medicine: Medicine, categoryName: Option<string>)

  /** The LEFT JOIN rows of one medicine: one per matching category, or one with a NULL name. */
  function CategoryRows(m: Medicine, cats: seq<Category>): (r: seq<MedicineRow>)
  {
    var hits := Filter(cats, (c: Category) => m.categoryId == Some(c.id));
    if hits == [] then [MedicineRow(m, None)]
    else seq(|hits|, i requires 0 <= i < |hits| => MedicineRow(m, Some(hits[i].name)))
  }

  /** FROM medicines m LEFT JOIN categories c ON m.category_id = c.id, in medicine rowid order. */
  function LeftJoin(meds: seq<Medicine>, cats: seq<Category>): seq<MedicineRow>
    decreases |meds|
  {
    if meds == [] then [] else CategoryRows(meds[0], cats) + LeftJoin(meds[1..], cats)
  }

  /** The category name a medicine row shows: NULL when it has none or names no category. */
  function CategoryNameOf(m: Medicine, cats: seq<Category>): (r: Option<string>)
    ensures r.Some? <==> m.categoryId.Some? && HasCategory(cats, m.categoryId.value)
    ensures r.Some? ==> exists c :: c in cats && c.id == m.categoryId.value && c.name == r.value
  {
    if m.categoryId.Some? then
      var c := FindCategory(cats, m.categoryId.value);
      if c.Some? then Some(c.value.name) else None
    else None
  }

  /** The row a medicine gets when category ids are unique. */
  function RowOf(m: Medicine, cats: seq<Category>): MedicineRow
  {
    MedicineRow(m, CategoryNameOf(m, cats))
  }

  /** The medicines' rows, one each, in rowid order. */
  function RowsOf(meds: seq<Medicine>, cats: seq<Category>): (r: seq<MedicineRow>)
    ensures |r| == |meds| && forall i :: 0 <= i < |meds| ==> r[i] == RowOf(meds[i], cats)
  {
    seq(|meds|, i requires 0 <= i < |meds| => RowOf(meds[i], cats))
  }

  /** With increasing category ids the join finds the medicine's category and nothing else. */
  lemma {:induction false} MatchingCategories(m: Medicine, cats: seq<Category>)
    requires IncreasingBy(cats, CategoryKey)
    ensures Filter(cats, (c: Category) => m.categoryId == Some(c.id))
         == if m.categoryId.Some? && FindCategory(cats, m.categoryId.value).Some?
            then [FindCategory(cats, m.categoryId.value).value] else []
    decreases |cats|
  {
    if cats != [] {
      var rest := cats[1..];
      assert IncreasingBy(rest, CategoryKey);
      MatchingCategories(m, rest);
      if m.categoryId == Some(cats[0].id) {
        // every later category has a larger id than the one that matched
        assert forall x :: x in rest ==> x.id > cats[0].id;
        assert !HasCategory(rest, cats[0].id);
      }
    }
  }

  /** With category ids unique, exactly one join row per medicine. */
  lemma CategoryRowsSingle(m: Medicine, cats: seq<Category>, next: int)
    requires Keyed(cats, CategoryKey, next)
    ensures CategoryRows(m, cats) == [RowOf(m, cats)]
  {
    MatchingCategories(m, cats);
  }

  /** With category ids unique, the LEFT JOIN has exactly one row per medicine, in rowid order. */
  lemma {:induction false} LeftJoinOneRowEach(meds: seq<Medicine>, cats: seq<Category>, next: int)
    requires Keyed(cats, CategoryKey, next)
    ensures LeftJoin(meds, cats) == RowsOf(meds, cats)
    decreases |meds|
  {
    if meds != [] {
      CategoryRowsSingle(meds[0], cats, next);
      LeftJoinOneRowEach(meds[1..], cats, next);
    }
  }

  /** ORDER BY m.name COLLATE NOCASE. */
  predicate RowNameLe(a: MedicineRow, b: MedicineRow)
  {
    NoCaseLe(a.medicine.name, b.medicine.name)
  }

  lemma RowNameOrder()
    ensures TotalPreorder(RowNameLe)
  {
    forall a: MedicineRow, b: MedicineRow ensures RowNameLe(a, b) || RowNameLe(b, a) {
      LexLeTotal(Fold(a.medicine.name), Fold(b.medicine.name));
    }
    forall a: MedicineRow, b: MedicineRow, c: MedicineRow | RowNameLe(a, b) && RowNameLe(b, c) ensures RowNameLe(a, c) {
      LexLeTransitive(Fold(a.medicine.name), Fold(b.medicine.name), Fold(c.medicine.name));
    }
  }

  /** get_all_medicines: the LEFT JOIN rows ordered case-insensitively by name. */
  function GetAllMedicines(meds: seq<Medicine>, cats: seq<Category>): (r: seq<MedicineRow>)
    ensures multiset(r) == multiset(LeftJoin(meds, cats))
    ensures SortedBy(r, RowNameLe)
  {
    RowNameOrder();
    SortByIsSorted(LeftJoin(meds, cats), RowNameLe);
    SortBy(LeftJoin(meds, cats), RowNameLe)
  }

  /**
   * In a consistent database every medicine appears exactly once, with its
   * category's name, or NULL exactly when it has no category.
   */
  lemma GetAllMedicinesOnceEach(t: Tables)
    requires Consistent(t)
    ensures multiset(GetAllMedicines(t.medicines, t.categories)) == multiset(RowsOf(t.medicines, t.categories))
    ensures forall x :: x in GetAllMedicines(t.medicines, t.categories) ==>
      x.medicine in t.medicines && (x.categoryName.None? <==> x.medicine.categoryId.None?)
  {
    LeftJoinOneRowEach(t.medicines, t.categories, t.nextCategoryId);
    var rows := RowsOf(t.medicines, t.categories);
    forall x | x in GetAllMedicines(t.medicines, t.categories)
      ensures x.medicine in t.medicines && (x.categoryName.None? <==> x.medicine.categoryId.None?)
    {
      assert x in multiset(rows);
      var i :| 0 <= i < |rows| && rows[i] == x;
      assert t.medicines[i] in t.medicines;
    }
  }

  /** In a consistent database the category_name each listed medicine shows is its category's name. */
  lemma GetAllMedicinesShowsCategoryName(t: Tables, x: MedicineRow, c: Category)
    requires Consistent(t)
    requires x in GetAllMedicines(t.medicines, t.categories) && c in t.categories
    requires x.medicine.categoryId == Some(c.id)
    ensures x.categoryName == Some(c.name)
  {
    var rows := RowsOf(t.medicines, t.categories);
    GetAllMedicinesOnceEach(t);
    assert x in multiset(rows);
    var i :| 0 <= i < |rows| && rows[i] == x;
    ShownCategoryName(t.categories, x.medicine, c);
  }

  /** With increasing category ids the name shown is the name of the medicine's category. */
  lemma ShownCategoryName(cats: seq<Category>, m: Medicine, c: Category)
    requires IncreasingBy(cats, CategoryKey)
    requires c in cats && m.categoryId == Some(c.id)
    ensures CategoryNameOf(m, cats) == Some(c.name)
  {
    CategoryIdsUnique(cats, FindCategory(cats, c.id).value, c);
  }

  /** With increasing ids two categories with the same id are the same row. */
  lemma CategoryIdsUnique(cats: seq<Category>, a: Category, b: Category)
    requires IncreasingBy(cats, CategoryKey)
    requires a in cats && b in cats && a.id == b.id
    ensures a == b
  {
    var i :| 0 <= i < |cats| && cats[i] == a;
    var j :| 0 <= j < |cats| && cats[j] == b;
    assert i == j by {
      assert CategoryKey(cats[i]) == CategoryKey(cats[j]);
    }
  }

  /** get_medicine: the row with that id, or None. */
  function GetMedicine(meds: seq<Medicine>, mid: int): (r: Option<Medicine>)
    ensures r.Some? <==> HasMedicine(meds, mid)
    ensures r.Some? ==> r.value in meds && r.value.id == mid
  {
    FindMedicine(meds, mid)
  }

  /** In a consistent database the row get_medicine returns is the only one with that id. */
  lemma GetMedicineUnique(t: Tables, mid: int, m: Medicine)
    requires Consistent(t) && m in t.medicines && m.id == mid
    ensures GetMedicine(t.medicines, mid) == Some(m)
  {
    var f := GetMedicine(t.medicines, mid).value;
    var k :| 0 <= k < |t.medicines| && t.medicines[k] == f;
    var l :| 0 <= l < |t.medicines| && t.medicines[l] == m;
    assert MedicineKey(t.medicines[k]) == MedicineKey(t.medicines[l]);
    assert k == l;
  }

  // ---------------- models/categories.py ----------------

  /** ORDER BY name (BINARY). */
  predicate CategoryNameLe(a: Category, b: Category)
  {
    LexLe(a.name, b.name)
  }

  lemma CategoryNameOrder()
    ensures TotalPreorder(CategoryNameLe)
  {
    forall a: Category, b: Category ensures CategoryNameLe(a, b) || CategoryNameLe(b, a) {
      LexLeTotal(a.name, b.name);
    }
    forall a: Category, b: Category, c: Category | CategoryNameLe(a, b) && CategoryNameLe(b, c)
      ensures CategoryNameLe(a, c)
    {
      LexLeTransitive(a.name, b.name, c.name);
    }
  }

  /** get_all_categories: every category once, ordered by name. */
  function GetAllCategories(cats: seq<Category>): (r: seq<Category>)
    ensures multiset(r) == multiset(cats)
    ensures SortedBy(r, CategoryNameLe)
  {
    CategoryNameOrder();
    SortByIsSorted(cats, CategoryNameLe);
    SortBy(cats, CategoryNameLe)
  }

  /** With names unique, the listing is strictly ascending: no two entries share a name. */
  lemma GetAllCategoriesStrict(cats: seq<Category>)
    requires NamesUnique(cats)
    ensures forall i, j :: 0 <= i < j < |GetAllCategories(cats)| ==>
      GetAllCategories(cats)[i].name != GetAllCategories(cats)[j].name
  {
    var r := GetAllCategories(cats);
    forall i, j | 0 <= i < j < |r| ensures r[i].name != r[j].name {
      assert r[i] in multiset(cats) && r[j] in multiset(cats);
      var a :| 0 <= a < |cats| && cats[a] == r[i];
      var b :| 0 <= b < |cats| && cats[b] == r[j];
      if a == b {
        // the same row twice would need two copies of it in cats
        assert multiset(r)[r[i]] >= 2 by {
          assert r[i] == r[j];
          MultisetTwo(r, i, j);
        }
        DistinctRowsOnce(cats, a);
      } else if a < b {
        assert CategoryName(cats[a]) != CategoryName(cats[b]);
      } else {
        assert CategoryName(cats[b]) != CategoryName(cats[a]);
      }
    }
  }

  lemma MultisetTwo<T>(s: seq<T>, i: int, j: int)
    requires 0 <= i < j < |s| && s[i] == s[j]
    ensures multiset(s)[s[i]] >= 2
  {
    assert s == s[..i] + [s[i]] + s[i + 1..j] + [s[j]] + s[j + 1..];
  }

  /** A row of a table with unique names occurs once in it. */
  lemma DistinctRowsOnce(cats: seq<Category>, a: int)
    requires NamesUnique(cats) && 0 <= a < |cats|
    ensures multiset(cats)[cats[a]] == 1
  {
    assert cats == cats[..a] + [cats[a]] + cats[a + 1..];
    assert cats[a] !in cats[..a];
    assert cats[a] !in cats[a + 1..];
  }
}
