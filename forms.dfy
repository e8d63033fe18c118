/**
 * The input rules of the request handlers in app.py that write or query the
 * database: add_medicine, add_batch and edit_batch (POST) and the JSON
 * endpoint api_upcoming. A submitted form or query string is a map from field
 * name to text; `form.get(k) or None`, `or ""` and `or 0` are Python's
 * truthiness rules on that text, and the text is then bound to a column of
 * the statement the handler executes.
 */
module Forms {

  import opened Wrappers
  import opened Text
  import opened Dates
  import opened Seqs
  import opened Schema
  import opened Statements
  import opened Integrity
  import opened Batches
  import Database

  /** request.form or request.args: each submitted field's (first) value. */
  type Form = map<string, string>

  /** form.get(key): the value, or None when the field was not submitted. */
  function Field(form: Form, key: string): Option<string>
  {
    if key in form then Some(form[key]) else None
  }

  /** `v or None` for a text or None: an empty text is falsy and becomes None. */
  function OrNone(v: Option<string>): Option<string>
  {
    if v.Some? && v.value != "" then v else None
  }

  /** The field was submitted with a non-empty value. */
  predicate Filled(form: Form, key: string)
  {
    key in form && form[key] != ""
  }

  /** Why a handler stops: a missing required field, a ValueError of int(), or an IntegrityError. */
  datatype FormError = MissingField(field: string) | NotAnInteger(text: string) | Rejected(error: DbError)

  /** A handler's outcome and the tables after it; a handler that stops has committed nothing. */
  datatype Handled<T> = Handled(result: Result<T, FormError>, after: Tables)

  // ---------------- the batch fields of add_medicine and add_batch ----------------

  /**
   * The value bound to batches.quantity for `form.get("quantity") or 0`: the
   * integer 0 for a missing or empty field, otherwise the text, which the
   * column's INTEGER affinity turns into the integer it spells.
   */
  function QuantityColumn(v: Option<string>): (r: Option<int>)
    ensures OrNone(v).None? ==> r == Some(0)
    ensures OrNone(v).Some? ==> (r.Some? <==> IsIntLiteral(v.value))
  {
    match OrNone(v)
    case None => Some(0)
    case Some(s) => ParseInt(s)
  }

  /** A quantity typed as the decimal text of n is stored as n. */
  lemma QuantityOfDecimalText(n: int)
    ensures QuantityColumn(Some(IntToString(n))) == Some(n)
  {
    ParseIntOfIntToString(n);
    if n < 0 {
      assert IntToString(n)[0] == '-';
    } else {
      NatToStringDigits(n);
    }
  }

  /** batch_no as submitted (an empty text is stored as ''), quantity `or 0`, expiry `or None`. */
  datatype BatchInput = BatchInput(batchNo: Option<string>, quantity: Option<int>, expiry: Option<string>)

  function BatchInputOf(form: Form): BatchInput
  {
    BatchInput(Field(form, "batch_no"), QuantityColumn(Field(form, "quantity")), OrNone(Field(form, "expiry")))
  }

  /**
   * `if batch_no or qty or expiry`, where qty is the submitted text or the
   * integer 0: a batch is wanted as soon as one of the three fields was
   * submitted non-empty. A quantity of "0" is a non-empty text, so it counts.
   */
  function InitialBatchWanted(form: Form): (r: bool)
    ensures r <==> Filled(form, "batch_no") || Filled(form, "quantity") || Filled(form, "expiry")
  {
    var qty := OrNone(Field(form, "quantity"));
    OrNone(Field(form, "batch_no")).Some? || qty.Some? || OrNone(Field(form, "expiry")).Some?
  }

  /** Only a quantity of "0" submitted: still a batch, with quantity 0. */
  lemma ZeroQuantityStillAddsBatch(name: string)
    ensures var form := map["name" := name, "quantity" := "0"];
      InitialBatchWanted(form) && BatchInputOf(form) == BatchInput(None, Some(0), None)
  {
    var form := map["name" := name, "quantity" := "0"];
    assert "quantity" in form && form["quantity"] == "0";
    assert AllDigits("0");
  }

  // ---------------- add_medicine ----------------

  /** category_id as bound: `form.get("category") or None`, NULL or the text of an id. */
  function CategoryInput(form: Form): Option<string>
  {
    OrNone(Field(form, "category"))
  }

  /**
   * What makes add_medicine raise before anything is committed: no name field
   * (a KeyError, answered with 400), or a category that is text no category
   * id equals, or an id no category has (the FOREIGN KEY).
   */
  predicate AddMedicineRejects(cats: seq<Category>, form: Form)
  {
    || "name" !in form
    || (CategoryInput(form).Some? &&
        (ParseInt(CategoryInput(form).value).None? || !HasCategory(cats, ParseInt(CategoryInput(form).value).value)))
  }

  /**
   * add_medicine (POST): inserts the medicine, with the name stripped and the
   * description defaulting to '', then, when any batch field was filled in,
   * its initial batch; both commit together.
   */
  function AddMedicine(t: Tables, form: Form, today: Day): (r: Handled<int>)
    ensures r.result.Failure? <==> AddMedicineRejects(t.categories, form)
    ensures r.result.Failure? ==> r.after == t
  {
    if "name" !in form then Handled(Failure(MissingField("name")), t)
    else if CategoryInput(form).Some? && ParseInt(CategoryInput(form).value).None? then
      Handled(Failure(Rejected(ForeignKeyViolation)), t)
    else
      var e := CreateMedicine(t, Strip(form["name"]), CategoryIdOf(form), OrEmpty(Field(form, "description")));
      if e.result.Failure? then Handled(Failure(Rejected(e.result.error)), t)
      else WithInitialBatch(e.after, e.result.value, form, today)
  }

  /** The category id a successful add_medicine stores. */
  function CategoryIdOf(form: Form): Option<int>
  {
    if CategoryInput(form).Some? then ParseInt(CategoryInput(form).value) else None
  }

  /** The second half of add_medicine: the initial batch of the medicine just inserted, if one is wanted. */
  function WithInitialBatch(t: Tables, mid: int, form: Form, today: Day): Handled<int>
  {
    if InitialBatchWanted(form) then
      var input := BatchInputOf(form);
      Handled(Success(mid), AddBatch(t, mid, input.batchNo, input.quantity, input.expiry, today).after)
    else Handled(Success(mid), t)
  }

  /** A successful add_medicine inserts exactly one medicine, the one the form describes, with the next id. */
  lemma AddMedicineInsertsOne(t: Tables, form: Form, today: Day)
    requires AddMedicine(t, form, today).result.Success?
    ensures var r := AddMedicine(t, form, today);
      && r.result.value == t.nextMedicineId
      && r.after.medicines == t.medicines + [Medicine(t.nextMedicineId, Strip(form["name"]), CategoryIdOf(form),
                                                      OrEmpty(Field(form, "description")), t.clock)]
      && r.after.categories == t.categories
  {
    AddMedicineUnfolds(t, form, today);
    var e := CreateMedicine(t, Strip(form["name"]), CategoryIdOf(form), OrEmpty(Field(form, "description")));
    WithInitialBatchKeeps(e.after, e.result.value, form, today);
  }

  /** A successful add_medicine is a successful insert of the medicine followed by the initial batch. */
  lemma AddMedicineUnfolds(t: Tables, form: Form, today: Day)
    requires AddMedicine(t, form, today).result.Success?
    ensures "name" in form
    ensures var e := CreateMedicine(t, Strip(form["name"]), CategoryIdOf(form), OrEmpty(Field(form, "description")));
      && e.result.Success? && AddMedicine(t, form, today) == WithInitialBatch(e.after, e.result.value, form, today)
  {
    assert !AddMedicineRejects(t.categories, form);
    var name := Strip(form["name"]);
    var e := CreateMedicine(t, name, CategoryIdOf(form), OrEmpty(Field(form, "description")));
    assert e.result.Success?;
  }

  /** The initial batch touches neither medicines nor categories and keeps the returned id. */
  lemma WithInitialBatchKeeps(t: Tables, mid: int, form: Form, today: Day)
    ensures var r := WithInitialBatch(t, mid, form, today);
      && r.result == Success(mid) && r.after.medicines == t.medicines && r.after.categories == t.categories
  {
  }

  /**
   * It inserts the initial batch exactly when a batch field was filled in,
   * for the new medicine, with the fields as bound; each insert is logged.
   */
  lemma AddMedicineBatchIffWanted(t: Tables, form: Form, today: Day)
    requires AddMedicine(t, form, today).result.Success?
    ensures var r := AddMedicine(t, form, today); var input := BatchInputOf(form);
      && (InitialBatchWanted(form) ==>
            && r.after.batches == t.batches + [Batch(t.nextBatchId, t.nextMedicineId, input.batchNo, input.quantity,
                                                     input.expiry, t.clock + 1)]
            && |r.after.activityLog| == |t.activityLog| + 2
            && r.after.activityLog[|t.activityLog| + 1] ==
                 LogEntry(t.nextLogId + 1, Insert, "batches", t.nextBatchId, OrEmpty(input.batchNo), t.clock + 1))
      && (!InitialBatchWanted(form) ==> r.after.batches == t.batches && |r.after.activityLog| == |t.activityLog| + 1)
      && r.after.activityLog[|t.activityLog|] ==
           LogEntry(t.nextLogId, Insert, "medicines", t.nextMedicineId, Strip(form["name"]), t.clock)
  {
    var e := CreateMedicine(t, Strip(form["name"]), CategoryIdOf(form), OrEmpty(Field(form, "description")));
    assert AddMedicine(t, form, today) == WithInitialBatch(e.after, e.result.value, form, today);
    var t1 := e.after;
    assert t1.nextBatchId == t.nextBatchId && t1.nextLogId == t.nextLogId + 1 && t1.clock == t.clock + 1;
    WithInitialBatchEffect(t1, e.result.value, form, today);
  }

  /** The initial batch, when wanted, is appended for the given medicine and logged; otherwise nothing changes. */
  lemma WithInitialBatchEffect(t: Tables, mid: int, form: Form, today: Day)
    requires HasMedicine(t.medicines, mid)
    ensures var r := WithInitialBatch(t, mid, form, today); var input := BatchInputOf(form);
      && (InitialBatchWanted(form) ==>
            && r.after.batches == t.batches + [Batch(t.nextBatchId, mid, input.batchNo, input.quantity, input.expiry, t.clock)]
            && r.after.activityLog == t.activityLog + [LogEntry(t.nextLogId, Insert, "batches", t.nextBatchId,
                                                                OrEmpty(input.batchNo), t.clock)])
      && (!InitialBatchWanted(form) ==> r.after == t)
  {
  }

  /** The add_medicine handler on the database file: one connection, committed once. */
  method SubmitAddMedicine(db: Database.Store, form: Form, today: Day) returns (r: Result<int, FormError>)
    requires db.Valid()
    modifies db
    ensures db.Valid()
    ensures r == AddMedicine(old(db.Snapshot()), form, today).result
    ensures db.Snapshot() == AddMedicine(old(db.Snapshot()), form, today).after
  {
    if "name" !in form {
      return Failure(MissingField("name"));
    }
    var name := Strip(form["name"]);
    var category := CategoryInput(form);
    var description := OrEmpty(Field(form, "description"));
    var categoryId: Option<int> := None;
    if category.Some? {
      categoryId := ParseInt(category.value);
      if categoryId.None? {
        return Failure(Rejected(ForeignKeyViolation));
      }
    }
    var created := db.CreateMedicine(name, categoryId, description);
    if created.Failure? {
      return Failure(Rejected(created.error));
    }
    if InitialBatchWanted(form) {
      var input := BatchInputOf(form);
      var added := db.AddBatch(created.value, input.batchNo, input.quantity, input.expiry, today);
    }
    r := Success(created.value);
  }

  // ---------------- add_batch (the route) ----------------

  /** The /add_batch/<medicine_id> route: its own INSERT, with the same field rules as add_medicine's batch. */
  function AddBatchRoute(t: Tables, medicineId: int, form: Form, today: Day): (r: Handled<int>)
    ensures r.result.Failure? <==> !HasMedicine(t.medicines, medicineId)
    ensures r.result.Failure? ==> r.result.error == Rejected(ForeignKeyViolation) && r.after == t
    ensures r.result.Success? ==>
      var input := BatchInputOf(form);
      && r.result.value == t.nextBatchId
      && r.after.batches == t.batches + [Batch(t.nextBatchId, medicineId, input.batchNo, input.quantity, input.expiry, t.clock)]
      && r.after.medicines == t.medicines
  {
    var input := BatchInputOf(form);
    var e := AddBatch(t, medicineId, input.batchNo, input.quantity, input.expiry, today);
    Handled(if e.result.Success? then Success(e.result.value) else Failure(Rejected(e.result.error)), e.after)
  }

  // ---------------- edit_batch (POST) ----------------

  /** `int(form.get("quantity") or 0)`: 0 for a missing or empty field, else the integer, else a ValueError. */
  function EditQuantity(form: Form): (r: Result<int, FormError>)
    ensures !Filled(form, "quantity") ==> r == Success(0)
    ensures Filled(form, "quantity") ==>
      (r.Success? <==> ParseInt(form["quantity"]).Some?) && (r.Success? ==> r.value == ParseInt(form["quantity"]).value)
  {
    match OrNone(Field(form, "quantity"))
    case None => Success(0)
    case Some(s) => if ParseInt(s).Some? then Success(ParseInt(s).value) else Failure(NotAnInteger(s))
  }

  /**
   * edit_batch (POST): converts the quantity, then overwrites all three
   * fields; an empty batch number or expiry is written as NULL.
   */
  function EditBatch(t: Tables, bid: int, form: Form, today: Day): (r: Handled<()>)
    ensures r.result.Failure? <==> Filled(form, "quantity") && ParseInt(form["quantity"]).None?
    ensures r.result.Failure? ==> r.after == t
  {
    var q := EditQuantity(form);
    if q.Failure? then Handled(Failure(q.error), t)
    else
      Handled(Success(()), UpdateBatch(t, bid, OrNone(Field(form, "batch_no")), Some(q.value),
                                       OrNone(Field(form, "expiry")), today))
  }

  /**
   * After a successful edit the batch with that id holds exactly the submitted
   * values (NULL for an empty batch number or expiry, 0 for an empty
   * quantity), keeps its medicine, and every other batch is as it was.
   */
  lemma EditBatchOverwrites(t: Tables, bid: int, form: Form, today: Day, i: int)
    requires Consistent(t)
    requires EditBatch(t, bid, form, today).result.Success?
    requires 0 <= i < |t.batches|
    ensures var after := EditBatch(t, bid, form, today).after;
      && |after.batches| == |t.batches|
      && after.batches[i] == if t.batches[i].id != bid then t.batches[i]
         else t.batches[i].(batchNo := OrNone(Field(form, "batch_no")), quantity := Some(EditQuantity(form).value),
                            expiry := OrNone(Field(form, "expiry")))
  {
    if t.batches[i].id == bid {
      assert t.batches[i] in t.batches;
      var found := FindBatch(t.batches, bid).value;
      var j :| 0 <= j < |t.batches| && t.batches[j] == found;
      assert j == i by {
        assert BatchKey(t.batches[j]) == BatchKey(t.batches[i]);
      }
    }
  }

  /** The log row of an edit always shows a quantity: edit_batch never writes a NULL one. */
  lemma EditBatchLogsQuantity(t: Tables, bid: int, form: Form, today: Day)
    requires EditBatch(t, bid, form, today).result.Success? && HasBatch(t.batches, bid)
    ensures var log := EditBatch(t, bid, form, today).after.activityLog;
      && |log| == |t.activityLog| + 1
      && log[|t.activityLog|].details ==
           "qty:" + IntToString(EditQuantity(form).value) + " expiry:" + OrEmpty(OrNone(Field(form, "expiry")))
  {
  }

  // ---------------- api_upcoming ----------------

  /** `int(request.args.get("days", 30))`. */
  function DaysArg(args: Form): (r: Result<int, FormError>)
    ensures "days" !in args ==> r == Success(SoonDays)
    ensures "days" in args ==> (r.Success? <==> ParseInt(args["days"]).Some?)
  {
    if "days" !in args then Success(SoonDays)
    else if ParseInt(args["days"]).Some? then Success(ParseInt(args["days"]).value)
    else Failure(NotAnInteger(args["days"]))
  }

  function InWindow(today: Day, days: int): NamedBatch -> bool
  {
    (x: NamedBatch) => ExpiresWithin(x.batch.expiry, today, days)
  }

  /**
   * The rows of api_upcoming: the same join and window as soon_to_expire but
   * with no ORDER BY, so SQLite promises no order; the model fixes one, the
   * batch rowid order, and states only the set of rows. A negative
   * window is empty: the modifier '+-n day' is malformed and DATE gives NULL.
   * So is a window ending after 9999-12-31, where DATE gives NULL as well.
   */
  function Upcoming(t: Tables, today: Day, days: int): (r: seq<NamedBatch>)
    ensures forall x :: x in r <==> x in SoonToExpire(t.batches, t.medicines, today, days)
    ensures days < 0 || today + days > LastDay ==> r == []
  {
    var rows := JoinNames(t.batches, t.medicines);
    if days < 0 || today + days > LastDay then
      FilterNone(rows, InWindow(today, days));
      Filter(rows, InWindow(today, days))
    else Filter(rows, InWindow(today, days))
  }

  /** api_upcoming: the rows for the requested window, or the ValueError of a days argument that is no integer. */
  function ApiUpcoming(t: Tables, args: Form, today: Day): (r: Result<seq<NamedBatch>, FormError>)
    ensures r.Failure? <==> DaysArg(args).Failure?
    ensures r.Success? ==> r.value == Upcoming(t, today, DaysArg(args).value)
  {
    var days := DaysArg(args);
    if days.Failure? then Failure(days.error) else Success(Upcoming(t, today, days.value))
  }

  /** The endpoint returns the rows soon_to_expire returns, each as often, only unordered. */
  lemma UpcomingIsSoonUnordered(t: Tables, today: Day, days: int)
    ensures multiset(Upcoming(t, today, days)) == multiset(SoonToExpire(t.batches, t.medicines, today, days))
  {
    var rows := JoinNames(t.batches, t.medicines);
    var keep := (e: Option<string>) => ExpiresWithin(e, today, days);
    FilterSame(rows, InWindow(today, days), (x: NamedBatch) => keep(x.batch.expiry));
  }

  /** Without a days argument the endpoint uses the default 30-day window of soon_to_expire. */
  lemma ApiUpcomingDefault(t: Tables, args: Form, today: Day)
    requires "days" !in args
    ensures ApiUpcoming(t, args, today).Success?
    ensures multiset(ApiUpcoming(t, args, today).value) == multiset(SoonToExpire(t.batches, t.medicines, today, SoonDays))
  {
    UpcomingIsSoonUnordered(t, today, SoonDays);
  }
}
