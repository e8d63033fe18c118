# MediVault in Dafny

MediVault is a small pharmacy-stock application: medicines grouped into categories, batches of each medicine with a quantity and an expiry date, a table of batches flagged as expired, and an audit log. This project models its core and proves properties of it:

- the SQLite schema of `database/setup.py`: five tables, their UNIQUE and FOREIGN KEY constraints, the ON DELETE CASCADE / SET NULL actions, the eight triggers and the seeding in `init_db`;
- the data-access functions under `models/`;
- the logic of the `app.py` routes: the home page's expiry classifier and grouping loop, the headline counts, the dashboard aggregates, and the input rules of the add, edit and upcoming-expiry handlers.

The model is organised as follows:

- **Schema** (`schema.dfy`) holds the rows as datatypes, the row each trigger writes, and the rows each ON DELETE action touches. A table is a sequence of rows in rowid order. AUTOINCREMENT is a "next id" counter that is never reused.
- **Statements** (`statements.dfy`) has one function per write statement, from the tables before to the tables after. It includes the constraint check (a violation gives `Failure` and leaves the tables unchanged), the trigger rows and the cascaded rows. `Run`/`RunAll` apply any sequence of calls.
- **Integrity** (`integrity.dfy`) states the invariant the schema maintains. Ids are positive, increasing and below the counter, names are unique, every foreign key resolves, and the log is in timestamp order. It proves, one lemma per statement, that every statement keeps the invariant.
- **Database** (`database.dfy`) is the database file as a class `Store`. Its fields are the tables and counters. Each method is one data-access call that rewrites the fields, keeps `Valid()`, and is specified by the matching Statements function.
- **Effects** (`effects.dfy`) holds lemmas across statements:
  - what the triggers log;
  - that an absent id deletes nothing;
  - that expiry flags repeat;
  - that a category can be replaced but never cleared.
- **Medicines**, **Batches** and **Logs** hold the read queries as functions. Their filters and their ORDER BY are stated in their postconditions.
- **Home** holds reference definitions for the home page: the status, display text and per-medicine card, each defined from all of a medicine's rows. **HomePage** is the route's imperative code, the dict-filling loop and the card loop, proved equal to them. **HomeCards** follows each card back through the name ordering and the view's LEFT JOIN to the medicine's batches, so that its total and next expiry are facts about the batches table.
- **Dashboard** holds the dashboard's totals, the category distribution and the month timeline.
- **Forms** models the handlers' input rules:
  - Python truthiness of `form.get(k) or None / or "" / or 0`;
  - `str.strip()`;
  - `int()`;
  - the binding of a text to an INTEGER column.

  It covers add_medicine, the add_batch route, edit_batch and api_upcoming.

How the outside world is modelled:

- **Dates** are day numbers (`Day = int`). `ParseDate` is a strict `YYYY-MM-DD` parser of ISO 8601 calendar dates: year at least 1, month 1–12, day within the month. It stands for both `datetime.strptime(..., "%Y-%m-%d")` and SQLite's `DATE()`.
- **Today** is an explicit parameter.
- **CURRENT_TIMESTAMP** is a `clock` counter that every data-access statement advances; the rows written by one statement share its value. The seeding INSERT of `init_db` leaves it alone, since categories carry no timestamp.

Some behaviours follow from the code rather than from what the application seems to intend:

- **Deleting a category can write to the log.** ON DELETE SET NULL updates each medicine of the category, which fires `log_medicine_update` once per medicine. So `delete_category` does not always leave the log alone. The model follows the code (`Statements.DeleteCategory`). When no medicine is in the category, nothing is logged (`Effects.DeleteUnusedCategoryLogsNothing`).
- **Expiry flags repeat.** Both expiry triggers flag every qualifying write without de-duplication (`Effects.UpdateFlagsAgain`). The dashboard's "expired" figure counts expired_items rows, not expired batches.
- **The two forms treat an empty batch number differently.** `edit_batch` turns an empty batch number into NULL. add_medicine and the add_batch route keep "" as the batch number.

## Model

| member | source | states |
|---|---|---|
| Dates.ParseDate | app.py:97 | a parsed text has the `YYYY-MM-DD` layout and denotes a day ≥ 1 |
| Dates.MonthOf | models/batches.py:60 | STRFTIME('%Y-%m') is defined exactly when the text parses, and is its first seven characters |
| Dates.DayNumberIncreasing | app.py:104 | comparing day numbers is comparing calendar dates: a later (year, month, day) has a larger number |
| Dates.ParsedDayAtMost | models/batches.py:35 | no expiry text denotes a date after 9999-12-31, the last date DATE() returns |
| Text.Strip | app.py:165 | the stripped name neither starts nor ends with whitespace |
| Text.StripShape | app.py:165 | the stripped name is the middle of the submitted text, with only whitespace cut from either end |
| Text.StripIdempotent | app.py:165 | stripping twice gives the same name as stripping once |
| Text.ParseInt | app.py:248 | int() accepts exactly an optional sign followed by at least one decimal digit; a negative result has a '-' sign and a '-' sign gives no positive result |
| Text.LeadingZeroIgnored | app.py:248 | int() ignores leading zeros: a digit text with a '0' in front reads as the same integer |
| Text.ParseIntOfIntToString | database/setup.py:99 | the quantity text printf writes into a log row reads back as the same integer |
| Text.Fold | models/medicines.py:20 | COLLATE NOCASE's folding maps each character on its own: 'A'–'Z' to the lower-case letter 32 code points up, every other character unchanged |
| Schema.MedicineUpdateLogs | database/setup.py:73-78 | one ('UPDATE','medicines') row per updated medicine, with consecutive log ids |
| Schema.BatchDeleteLogs | database/setup.py:102-107 | one ('DELETE','batches') row per deleted batch, with its old id and batch number, consecutive log ids |
| Schema.ExpiryLeTotal | models/batches.py:23 | ORDER BY expiry_date compares any two rows (NULL first) |
| Schema.ExpiryLeTransitive | models/batches.py:23 | ORDER BY expiry_date is transitive |
| Statements.SeedCategories | database/setup.py:134-142 | four categories with consecutive ids and pairwise different names |
| Statements.InitDb | database/setup.py:126-145 | seeds the four categories only into an empty categories table; nothing else changes |
| Statements.InitDbIdempotent | database/setup.py:132-142 | a second init_db changes nothing |
| Statements.CreateCategory | models/categories.py:11-18 | fails with the UNIQUE violation exactly when the name is taken, changing nothing; otherwise returns the next id, appends exactly the row (that id, name) and leaves medicines, batches, expired_items and the log alone |
| Statements.DeleteCategory | models/categories.py:20-25 | removes exactly that category; each medicine stays in place, with category_id set to NULL exactly where it was that category; the log gains exactly one ('UPDATE','medicines', id, name) row per such medicine; no batch is touched |
| Statements.UpdateCategory | models/categories.py:27-32 | fails exactly when another category has the new name, changing nothing; otherwise the row with that id gets the new name, every other row is equal and every id stays in place; medicines, batches, expired_items and the log untouched |
| Statements.CreateMedicine | models/medicines.py:3-11 | fails exactly for an unknown category, changing nothing; otherwise appends exactly the given medicine with the next id and exactly one ('INSERT','medicines',id,name) log row; categories, batches and expired_items unchanged |
| Statements.Patched | models/medicines.py:39-44 | each of name, category_id and description takes the value passed, or keeps its own when None is passed; id and created_at never change |
| Statements.Fragments | models/medicines.py:37-46 | the SET list is empty exactly when every argument is None, and names category_id exactly when one is passed |
| Statements.AssignFragments | models/medicines.py:39-48 | executing the assembled SET list gives the row with the passed fields replaced and the others kept |
| Statements.ExecuteUpdate | models/medicines.py:48 | an UPDATE of an absent id changes nothing but the clock; the FOREIGN KEY fails exactly when category_id is set to a missing category, changing nothing; otherwise the row with that id becomes the assigned row, one ('UPDATE','medicines',id,new name) row is logged, and categories, batches and expired_items are unchanged |
| Statements.UpdateMedicine | models/medicines.py:34-50 | no fields: nothing executed, tables unchanged; fails exactly for an existing medicine and an unknown category; otherwise the medicine's row is replaced by the patched one, one update row is logged, and categories, batches and expired_items are unchanged |
| Statements.DeleteMedicineLogs | database/setup.py:80-85 | deleting a present medicine logs one row per cascaded batch plus one; an absent medicine logs nothing |
| Statements.DeleteMedicine | models/medicines.py:52-57 | removes exactly that medicine and exactly its batches; the expired_items rows of its batches go with them and every other flag row stays; appends the delete rows; leaves categories alone |
| Statements.Flagged | database/setup.py:109-123 | one expired_items row (batch id, today, processed 0) exactly when the expiry parses to a day ≤ today, otherwise none |
| Statements.AddBatch | models/batches.py:3-11 | fails exactly for an unknown medicine, changing nothing; otherwise appends exactly the given batch with the next id, logs ('INSERT','batches',id, batch number or ''), appends the flag row (next id, batch id, today, 0) exactly when expired, and leaves categories and medicines alone |
| Statements.DeleteBatch | models/batches.py:13-18 | removes exactly that batch and keeps every other; keeps exactly the expired_items rows not pointing at it; logs ('DELETE','batches', id, old batch number or '') when the batch existed and nothing otherwise |
| Statements.UpdateBatch | app.py:251-254 | an absent id changes nothing but the clock; otherwise the batch with that id gets the three new values and every other batch is equal, the log gains ('UPDATE','batches', id, `qty:<q> expiry:<e>`), and the flag row (next id, id, today, 0) is appended exactly when expired |
| Statements.Run | database/setup.py:66-123 | any call only appends to the log and never turns the clock back |
| Integrity.AppendLogRows | database/setup.py:47 | rows stamped with the current time keep the log in timestamp order |
| Integrity.InitDbKeeps | database/setup.py:132-142 | seeding keeps the invariant |
| Integrity.CreateCategoryKeeps | database/setup.py:11 | create_category keeps ids, unique names and every foreign key |
| Integrity.DeleteCategoryKeeps | database/setup.py:20 | delete_category with SET NULL leaves no dangling category reference |
| Integrity.UpdateCategoryKeeps | database/setup.py:11 | a successful rename keeps names unique |
| Integrity.CreateMedicineKeeps | database/setup.py:14-21 | create_medicine keeps the invariant |
| Integrity.UpdateMedicineKeeps | models/medicines.py:34-50 | update_medicine keeps the invariant |
| Integrity.ExecuteUpdateKeeps | models/medicines.py:48 | the UPDATE keeps ids and the category foreign key |
| Integrity.DeleteMedicineKeeps | database/setup.py:30 | the cascade leaves no batch without its medicine and no flag without its batch |
| Integrity.AddBatchKeeps | database/setup.py:25-30 | add_batch keeps the invariant, including the medicine reference |
| Integrity.DeleteBatchKeeps | database/setup.py:38 | the cascade leaves no expired_items row pointing at the deleted batch |
| Integrity.UpdateBatchKeeps | app.py:251-254 | the batch update keeps the invariant |
| Integrity.RunKeeps | database/setup.py:9-123 | every single call keeps the invariant, whether it succeeds or raises |
| Integrity.RunAllKeeps | database/setup.py:9-123 | any sequence of calls from a consistent database keeps it consistent |
| Database.Store.constructor | database/setup.py:9-48 | a new database file: five empty tables, counters at 1, invariant holds |
| Database.Store.InitDb | database/setup.py:126-145 | the new state is that of Statements.InitDb, and the invariant holds |
| Database.Store.CreateCategory | models/categories.py:11-18 | returns the id or the violation and rewrites the tables as Statements.CreateCategory; unchanged on failure |
| Database.Store.DeleteCategory | models/categories.py:20-25 | rewrites the tables as Statements.DeleteCategory, invariant kept |
| Database.Store.UpdateCategory | models/categories.py:27-32 | as Statements.UpdateCategory; unchanged on failure |
| Database.Store.CreateMedicine | models/medicines.py:3-11 | as Statements.CreateMedicine; unchanged on failure |
| Database.Store.UpdateMedicine | models/medicines.py:34-50 | builds the fragment list step by step; the result and new state are those of Statements.UpdateMedicine |
| Database.Store.DeleteMedicine | models/medicines.py:52-57 | as Statements.DeleteMedicine, invariant kept |
| Database.Store.AddBatch | models/batches.py:3-11 | as Statements.AddBatch; unchanged on failure |
| Database.Store.DeleteBatch | models/batches.py:13-18 | as Statements.DeleteBatch, invariant kept |
| Database.Store.UpdateBatch | app.py:251-255 | as Statements.UpdateBatch, invariant kept |
| Effects.CategoryWritesLogNothing | models/categories.py:11-32 | creating or renaming a category appends no log row |
| Effects.DeleteUnusedCategoryLogsNothing | models/categories.py:20-25 | deleting a category no medicine has appends no log row and leaves the medicines as they were |
| Effects.DeleteCategoryKeepsMedicines | database/setup.py:20 | after deleting a category each medicine is still in place with the same id, name and description |
| Effects.DeleteMedicineLogsOldRow | database/setup.py:80-85 | the last row logged for a medicine delete is ('DELETE','medicines', id, old name) |
| Effects.DeleteMedicineLogsBatches | database/setup.py:102-107 | each cascaded batch is logged with its old id and batch number, in rowid order |
| Effects.UpdateNeverClearsCategory | models/medicines.py:41-42 | a medicine with a category still has one after any update_medicine |
| Effects.MedicineIdsUnique | database/setup.py:15 | in a table of increasing ids a medicine is the only row with its id |
| Effects.DeleteAbsentBatch | models/batches.py:13-18 | deleting an id no batch has leaves batches, expired_items and the log as they were |
| Effects.UpdateFlagsAgain | database/setup.py:117-123 | writing the same past expiry twice adds two expired_items rows for the batch |
| Effects.UpdateDetailsReadBack | database/setup.py:99 | for any quantity and expiry the details text reads back: after `qty:` the quantity's text parses to the quantity (empty for NULL), and after ` expiry:` comes the expiry or '' |
| Medicines.CategoryNameOf | models/medicines.py:17-19 | category_name is present exactly when the medicine's category exists, and is then the name of a category with that id |
| Medicines.ShownCategoryName | models/medicines.py:17-19 | with unique category ids the name shown is the name of the medicine's category |
| Medicines.LeftJoinOneRowEach | models/medicines.py:19 | with unique category ids the LEFT JOIN yields exactly one row per medicine |
| Medicines.RowNameOrder | models/medicines.py:20 | ORDER BY m.name COLLATE NOCASE is a total preorder |
| Medicines.GetAllMedicines | models/medicines.py:13-24 | the joined rows, rearranged, in NOCASE name order |
| Medicines.GetAllMedicinesOnceEach | models/medicines.py:13-24 | on a consistent database every medicine appears exactly once, with its category's name or None |
| Medicines.GetAllMedicinesShowsCategoryName | models/medicines.py:13-24 | on a consistent database a listed medicine with category c shows c's name |
| Medicines.GetMedicine | models/medicines.py:26-32 | finds a row with that id exactly when there is one |
| Medicines.GetMedicineUnique | models/medicines.py:26-32 | on a consistent database the row found is the medicine with that id |
| Medicines.CategoryNameOrder | models/categories.py:6 | ORDER BY name is a total preorder |
| Medicines.GetAllCategories | models/categories.py:3-9 | every category, rearranged, in name order |
| Medicines.GetAllCategoriesStrict | models/categories.py:6 | with unique names the listing is strictly ascending |
| Batches.BatchExpiryOrder | models/batches.py:23 | ORDER BY expiry_date is a total preorder on batches |
| Batches.BatchesForMedicine | models/batches.py:20-26 | exactly the medicine's batches, each as often as in the table, sorted by expiry |
| Batches.JoinNames | models/batches.py:32-34 | a join row pairs a batch with the name of a medicine whose id it references |
| Batches.JoinNamesComplete | models/batches.py:34 | a batch whose medicine exists has a join row |
| Batches.ExpiryQuery | models/batches.py:31-37 | the join rows meeting the expiry condition, sorted by expiry |
| Batches.SoonToExpire | models/batches.py:28-40 | exactly the join rows with today ≤ expiry ≤ today+days, sorted by expiry; none for a negative window or one ending after 9999-12-31 |
| Batches.GetExpired | models/batches.py:42-54 | exactly the join rows expiring before today, sorted by expiry |
| Batches.ExpiredNotSoon | models/batches.py:28-54 | no row is both in get_expired and in soon_to_expire, for any window |
| Batches.SoonToExpireComplete | models/batches.py:28-40 | every batch in the window is reported with its medicine's name |
| Batches.GetExpiredComplete | models/batches.py:42-54 | every expired batch is reported with its medicine's name |
| Batches.Months | models/batches.py:63-64 | the GROUP BY keys: each month of some batch, and only those |
| Batches.MonthsAscending | models/batches.py:64 | the month keys are strictly ascending |
| Batches.ExpiryTimeline | models/batches.py:56-68 | one row per month of a batch with an expiry and no other; months strictly ascending; each total is the sum of that month's quantities |
| Logs.NewestFirst | models/logs.py:6-7 | the i-th listed row is the i-th row from the end of the log |
| Logs.NewestFirstSorted | models/logs.py:7 | in a chronological log that order is timestamp descending |
| Logs.GetLogs | models/logs.py:3-12 | at most limit rows, a prefix of the full newest-first listing; None gives every row |
| Logs.GetLogsPrefix | models/logs.py:9 | a smaller limit lists a prefix of a larger one |
| Logs.LogsPage | app.py:349 | the /logs page shows at most 200 rows, a prefix of the newest-first listing |
| Logs.LogsByTable | models/logs.py:14-20 | exactly the rows about that table |
| Logs.LogsByAction | models/logs.py:22-28 | exactly the rows with that action |
| Logs.FilteredNewestFirst | models/logs.py:14-28 | both filtered listings are in timestamp-descending order |
| Logs.UnknownActionEmpty | models/logs.py:22-28 | an action other than INSERT, UPDATE or DELETE finds nothing |
| Logs.ActionsPartition | models/logs.py:22-28 | every logged action is INSERT, UPDATE or DELETE, so the three listings split the log |
| Logs.ActionListingsCoverLog | models/logs.py:22-28 | the three action listings together have as many rows as the log |
| Home.ParsedExpiry | app.py:95-101 | a date is parsed only from a non-empty text, and agrees with what SQL's DATE sees |
| Home.Classify | app.py:103-112 | expired iff D < today, soon iff today ≤ D ≤ today+30, healthy iff later, no-date iff no parsed date; exactly one holds |
| Home.ClassifyAgreesWithQueries | app.py:43-57 | the classifier's expired and soon agree with the headline and batch queries' windows, on every day for which today + 30 days is a date |
| Home.ExpiringTodayIsSoonButFlagged | app.py:104-109 | a batch expiring today shows as soon yet is flagged by the expiry trigger |
| Home.ExpiryDisplay | app.py:89-101 | the date when it parses; otherwise the raw text, or "No expiry" when there is none |
| Home.BatchJoin | database/setup.py:59-61 | every row carries the medicine's id, name and category; a medicine without batches gives one row with NULL batch columns; otherwise the i-th row carries the id, number, quantity and expiry of its i-th batch |
| Home.OverviewJoinMentions | database/setup.py:50-61 | the view mentions a medicine id exactly when the medicine is listed |
| Home.OverviewNameOrder | app.py:66 | ORDER BY medicine_name COLLATE NOCASE is a total preorder |
| Home.HomeRows | app.py:60-68 | the view's rows, rearranged, sorted by name |
| Home.HomeRowsCoverMedicines | database/setup.py:59-61 | the home rows mention exactly the medicines of the database |
| Home.NextExpiryShown | app.py:134-137 | the date when there is one, otherwise "—" |
| Home.FirstIds | app.py:77-85 | the dict's keys in insertion order: each mentioned id once, nothing else |
| HomeCards.TotalQtyPermutation | app.py:88 | the running total_qty does not depend on the order of the rows |
| HomeCards.TotalQtyOfJoined | app.py:88 | the joined rows of some batches total their quantities, NULL as 0 |
| HomeCards.OverviewBatchRows | database/setup.py:50-61 | with increasing medicine ids the view's batch rows for a medicine are exactly its batches joined to it, in rowid order |
| HomeCards.EarliestSameRows | app.py:114-116 | next_expiry depends only on which rows were read, not their order |
| HomeCards.CardOfBatches | app.py:87-129 | on a consistent database each card has one entry per batch of its medicine; total_qty is those batches' summed quantity with NULL as 0; next_expiry is the earliest parsed date among them, None exactly when none parses |
| Home.Qty | app.py:88 | a NULL quantity counts as 0 and a stored integer as itself; HomeCards.TotalQtyOfJoined shows the card total agrees with the COALESCE-as-0 sum over the batches |
| Home.Views | app.py:118-128 | one batch entry per batch row, in order |
| Home.EarliestExpiryIsLeast | app.py:114-116 | next_expiry is None iff no row's expiry parses; otherwise it is some row's date and ≤ every parsed date |
| Home.Cards | app.py:132-138 | one card per first-seen id, in that order, each built from all of that medicine's rows |
| Home.StepOther | app.py:74-129 | a row of another medicine leaves a card as it was |
| Home.StepKnown | app.py:74-129 | a further row of a medicine updates its card by one AddRow step |
| Home.StepNew | app.py:77-85 | the first row of a medicine starts a fresh card and applies one AddRow step |
| Home.FirstIdsSnoc | app.py:77-85 | a row adds its id to the key order only when the id is new |
| Home.CardsOnePerMedicine | app.py:77-85 | no two cards share a medicine id, and there is a card exactly for each mentioned id |
| Home.TotalQtyOfViews | app.py:88-129 | total_qty is the sum of the listed batches' quantities, NULL counted as 0 |
| Home.Summaries | app.py:87-129 | a medicine's total is the sum of its batches; next expiry is None iff all are no-date, otherwise a shown date that is the least |
| Home.CardSummaries | app.py:114-137 | every card's total and next expiry are those of its batches, and "—" shows exactly when no date exists |
| Home.RowWithoutBatch | app.py:87 | a row with no batch creates the card but adds no batch and no quantity, and changes no other card |
| Home.HeadlineStats | app.py:39-57 | the medicine and batch totals; upcoming plus expired never exceed the batches |
| Home.HeadlineAgreesWithStatus | app.py:43-57 | upcoming and expired count exactly the batches classified soon and expired, on every day for which today + 30 days is a date |
| Home.OneCardPerMedicine | app.py:73-138 | on a consistent database there is a card exactly for each medicine |
| HomePage.GroupRows | app.py:73-129 | the loop leaves the dict with exactly the mentioned ids, in first-seen order, each mapped to the card built from all of its rows |
| HomePage.Absorb | app.py:87-129 | one row's effect on a card: append its batch entry, add its quantity, lower next_expiry |
| HomePage.GroupingMeaning | app.py:73-129 | the folded dict agrees with the reference cards for every id |
| HomePage.GroupingKeys | app.py:77-85 | the folded keys are the first-seen ids |
| HomePage.GroupingEntry | app.py:74-129 | the folded entry of a mentioned id is its reference card |
| HomePage.BuildCards | app.py:132-138 | the med_cards list equals the reference cards |
| HomePage.GroupedCards | app.py:132-138 | walking the dict in key order gives one card per key, with its next-expiry text |
| HomePage.Render | app.py:32-154 | the headline counts and cards of the current database |
| Dashboard.Label | app.py:312 | a label is never empty: the name, or "Uncategorized" for an empty one |
| Dashboard.Distribution | app.py:304-313 | one entry per category, in listing order, with its label and joined batch count |
| Dashboard.CategoryDistribution | app.py:304-313 | the distribution has exactly one entry per category |
| Dashboard.JoinedCountMeaning | app.py:305-308 | with unique medicine ids the joined count is the number of batches whose medicine is in the category |
| Dashboard.EmptyCategoryZero | app.py:307-308 | a category no medicine has counts 0 |
| Dashboard.DistributionTotal | app.py:304-310 | the counts add up to the batches whose medicine has a listed category |
| Dashboard.SplitFirstCategory | app.py:307-308 | with distinct category ids a batch counts for at most one category |
| Dashboard.ListingIdsDistinct | database/setup.py:10 | the listed categories have distinct ids |
| Dashboard.CategoryCountMeaning | app.py:304-313 | each entry's label is its category's name and its count is the batches of that category's medicines |
| Dashboard.EmptyCategoryListedZero | app.py:307-308 | an empty category is listed with count 0 |
| Dashboard.EveryBatchCountedOnce | app.py:304-313 | categorised counts plus the uncategorised batches are exactly all batches: those are omitted, none twice |
| Dashboard.DashboardOf | app.py:281-339 | the totals and expired_items count; soon is the number of batches in the 30-day window; for each listed category its label and joined count; the month labels are exactly the months of some batch, strictly ascending, each with its month's NULL-as-0 sum |
| Dashboard.DashboardCountsMeaning | app.py:304-313 | on a consistent database each category's count is the number of batches whose medicine is in that category |
| Dashboard.SoonMatchesHome | app.py:293-297 | the dashboard's soon count equals the home page's upcoming count |
| Forms.QuantityColumn | app.py:178-185 | a missing or empty quantity binds the integer 0; a submitted text is stored as an integer exactly when it is an integer literal |
| Forms.QuantityOfDecimalText | app.py:178 | a quantity typed as the decimal text of n is stored as n |
| Forms.InitialBatchWanted | app.py:181 | a batch is wanted exactly when batch number, quantity or expiry was submitted non-empty |
| Forms.ZeroQuantityStillAddsBatch | app.py:178-181 | a quantity of "0" alone still adds a batch, with quantity 0 |
| Forms.AddMedicine | app.py:164-188 | fails exactly when name is missing or the category is not an existing id, writing nothing |
| Forms.AddMedicineInsertsOne | app.py:165-174 | success inserts exactly one medicine: next id, stripped name, bound category, description or '' |
| Forms.AddMedicineBatchIffWanted | app.py:176-185 | the initial batch is inserted iff wanted, for the new medicine with the fields as bound; each insert is logged |
| Forms.SubmitAddMedicine | app.py:160-191 | the handler's two calls on the database give the result and state of AddMedicine |
| Forms.AddBatchRoute | app.py:204-218 | fails exactly for an unknown medicine; otherwise appends exactly the batch the form describes |
| Forms.EditQuantity | app.py:248 | 0 for a missing or empty field, else the integer typed, else the ValueError |
| Forms.EditBatch | app.py:246-255 | fails exactly for quantity text that is not an integer, writing nothing |
| Forms.EditBatchOverwrites | app.py:247-254 | the edited batch holds exactly the submitted values (empty → NULL, quantity 0); every other batch is unchanged |
| Forms.EditBatchLogsQuantity | app.py:248-254 | the log row of an edit always shows a quantity |
| Forms.DaysArg | app.py:360 | 30 without a days argument; otherwise the integer, or the ValueError |
| Forms.Upcoming | app.py:365-371 | the same rows as soon_to_expire for that window; none for a negative window or one ending after 9999-12-31 |
| Forms.ApiUpcoming | app.py:359-376 | the ValueError exactly for a malformed days; otherwise the window's rows |
| Forms.UpcomingIsSoonUnordered | app.py:365-371 | the endpoint's rows are soon_to_expire's, each as often, only unordered |
| Forms.ApiUpcomingDefault | app.py:360 | with no days argument the rows are those of the 30-day soon_to_expire |

## Left out

- Flask routing, templates, `flash`, `redirect` and `jsonify` are not modelled. A handler's result is its outcome value and the tables after it.
- The GET halves of add_medicine and edit_batch are not modelled. The first lists `Medicines.GetAllCategories`; the second is a join lookup.
- The `/delete_batch` route is not modelled separately. It executes the same statement as `Database.Store.DeleteBatch`.
- Connections are not modelled: `get_conn`, the PRAGMA, commit and close. Each data-access call is one atomic transition of `Database.Store`. A handler that raises commits nothing.
- The wall clock is a parameter: `today` is passed in, and CURRENT_TIMESTAMP is a counter. Timestamps are not date-times.
- The leniencies of `strptime` and SQLite `DATE()` are not modelled, including where the two disagree. Both are the one strict parser `ParseDate`.
- The `strftime("%d %b %Y")` display text is not modelled; a parsed date is shown as its day number.
- The home page's LIKE search is not modelled (`Home.HomeRows` is the page without `q`).
- COLLATE NOCASE folds ASCII letters only, which matches SQLite's NOCASE.
- The order among rows that compare equal under ORDER BY is not a documented SQLite order. The model fixes one: the stable rowid order for the medicine, category and batch queries, and newest row first (reversed rowid order) for the log listings, which sort by a timestamp that several rows of one statement share. Forms.Upcoming (api_upcoming, app.py:365-371) has no ORDER BY at all, so SQLite promises no order for its rows; the model lists them in batch rowid order, and only the set of rows (Forms.UpcomingIsSoonUnordered) is stated about it.
- Names, medicine ids and descriptions are taken to be non-NULL: the model's Statements.CreateCategory, Statements.UpdateCategory, Statements.CreateMedicine and Statements.AddBatch take a `string` or `int`, which cannot be NULL. So the NOT NULL constraints on categories.name (database/setup.py:11), medicines.name (database/setup.py:16) and batches.medicine_id (database/setup.py:25) are not modelled: passing None to create_category, update_category, create_medicine or add_batch raises IntegrityError and writes nothing in the program, and the model has no such input. Likewise `create_medicine(name, description=None)` stores a NULL description, which the model does not represent (its description is always a text). The promise that category names are unique and non-NULL is proved for its UNIQUE half only.
- SQLite's GROUP BY output order is taken to be by group key. So the category distribution is in name order.
- Forms.QuantityColumn: a quantity text that is not an integer literal is stored as NULL. SQLite's INTEGER affinity (database/setup.py:27) does otherwise. A real literal such as "2.5" is stored as REAL 2.5. A real literal with an integral value, such as "3.0" or "1e3", is stored as INTEGER 3 or 1000. Only text that is not numeric is kept as TEXT.
- Home.Qty: reads a stored quantity as its integer, NULL as 0, and REAL values are not modelled. In the program, `int(r["quantity"] or 0)` in home() (app.py:88) behaves differently for the two cases above. A REAL such as 2.5 is shown truncated, as 2, while the expiry timeline adds 2.5. A quantity kept as TEXT makes it raise ValueError on every visit to the home page. The model stores NULL in both cases and shows 0.
- Home.ClassifyAgreesWithQueries, Home.HeadlineAgreesWithStatus: stated for days on which today + 30 days is no later than 9999-12-31. Past that, `today + timedelta(days=30)` in home() raises OverflowError, and the page is not computed. The model's `Home.Classify` still classifies.
- `today` is taken to be a date no later than 9999-12-31, as both `datetime.utcnow()` and DATE('now') return.
- Forms.EditBatch: the 64-bit range of SQLite INTEGER is not modelled. A quantity such as "9223372036854775808" makes the program's bind raise OverflowError (app.py:251-254) and write nothing, while the model stores it. In add_medicine and the add_batch route the same text is passed as text and SQLite stores it as REAL. A `SUM(quantity)` beyond the 64-bit range raises "integer overflow" in the timeline query (models/batches.py:60, app.py:317); `Batches.ExpiryTimeline` returns the unbounded sum.
- Forms.AddMedicine: category text that SQLite's INTEGER affinity converts but that is not an integer literal (such as "3.0") is treated as rejected.
- Python `int()` also accepts surrounding whitespace, digit underscores and Unicode decimal digits of other scripts (`int("٣") == 3`). These are not modelled in `Text.ParseInt`, which accepts ASCII digits only.
- `models/__init__.py`, `static/charts.js` and the `__main__` blocks are not part of this model.
- A category named "Uncategorized" and a category with an empty name get the same chart label. The model keeps both entries apart, as the query does.
