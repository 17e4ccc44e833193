/**
 * What the list pages put into their forms and take out of them before a
 * request: the preset of the customers page's work-address form, the date
 * the business-expenses page normalises, and the password rules of the
 * users page.
 */
module PageForms {
  import opened Wrappers
  import opened Json
  import opened Text
  import opened Dates
  import opened Entities
  import ExpensesReport

  // ---------------------------------------------------------------------------
  // The work-address form of the customers page

  /** Hidden inputs of the form, set by the page rather than typed. */
  const WorkAddressHidden: seq<string> := ["customerId", "latitude", "longitude"]

  /** The inputs the user fills in; every one is required. */
  const WorkAddressVisible: seq<string> :=
    ["addressName", "address", "addressCity", "addressState", "addressZipCode", "contactName", "contactPhone"]

  /** `resetFields()` then `setFieldsValue({ customerId, latitude: "1", longitude: "1" })`. */
  function WorkAddressPreset(c: Customer): map<string, Value> {
    map["customerId" := Num(c.id), "latitude" := Str("1"), "longitude" := Str("1")]
  }

  /** Submitting the form: the names of the empty required inputs, or the values sent. */
  function SubmitWorkAddress(form: map<string, Value>): (r: Result<map<string, Value>, seq<string>>)
    ensures r.Ok? <==> Validates(form, WorkAddressVisible)
    ensures r.Ok? ==> r.value == Values(form, WorkAddressHidden + WorkAddressVisible)
  {
    var missing := MissingOf(form, WorkAddressVisible);
    if |missing| > 0 then Err(missing) else Ok(Values(form, WorkAddressHidden + WorkAddressVisible))
  }

  /** The typed inputs decide acceptance: every visible input must hold something. */
  lemma PresetFormAccepted(c: Customer, typed: map<string, Value>)
    requires forall k :: k in typed ==> k in WorkAddressVisible
    ensures SubmitWorkAddress(WorkAddressPreset(c) + typed).Ok? <==>
      forall k :: k in WorkAddressVisible ==> k in typed && Filled(typed[k])
  {
    var form := WorkAddressPreset(c) + typed;
    forall k | k in WorkAddressVisible
      ensures FieldValue(form, k) == FieldValue(typed, k)
    {
      assert k != "customerId" && k != "latitude" && k != "longitude";
    }
  }

  /**
   * Whatever the user types into the visible inputs, an accepted form
   * sends the customer's id and the fixed coordinates the page preset.
   */
  lemma PresetSurvivesTyping(c: Customer, typed: map<string, Value>)
    requires forall k :: k in typed ==> k in WorkAddressVisible
    requires SubmitWorkAddress(WorkAddressPreset(c) + typed).Ok?
    ensures var sent := SubmitWorkAddress(WorkAddressPreset(c) + typed).value;
      "customerId" in sent && sent["customerId"] == Num(c.id) &&
      "latitude" in sent && sent["latitude"] == Str("1") &&
      "longitude" in sent && sent["longitude"] == Str("1")
  {
    var form := WorkAddressPreset(c) + typed;
    var names := WorkAddressHidden + WorkAddressVisible;
    assert names[0] == "customerId" && names[1] == "latitude" && names[2] == "longitude";
    PresetKept(c, typed, "customerId");
    PresetKept(c, typed, "latitude");
    PresetKept(c, typed, "longitude");
  }

  /** The page's preset of a hidden input is not overwritten by typing. */
  lemma PresetKept(c: Customer, typed: map<string, Value>, k: string)
    requires forall k :: k in typed ==> k in WorkAddressVisible
    requires k in WorkAddressHidden
    ensures FieldValue(WorkAddressPreset(c) + typed, k) == WorkAddressPreset(c)[k]
  {
    assert k !in WorkAddressVisible;
  }

  // ---------------------------------------------------------------------------
  // The date of a business expense

  /** `values.date = values.date.format("YYYY-MM-DD HH:mm:ss")` before create and update. */
  function NormaliseExpense(values: map<string, Value>, date: ValidDateTime): (r: map<string, Value>)
    ensures r.Keys == values.Keys + {"date"}
    ensures forall k :: k in values && k != "date" ==> r[k] == values[k]
  {
    values["date" := Str(Format(date))]
  }

  /** The sent date passes the contracts page's ISO test and yields the report's day and month keys. */
  lemma NormalisedDateKeys(values: map<string, Value>, date: ValidDateTime)
    ensures var sent := NormaliseExpense(values, date)["date"];
      sent.Str? && IsoPrefix(sent.s) &&
      ExpensesReport.DayKey(sent.s) == FormatDay(date) &&
      ExpensesReport.MonthKey(sent.s) == FormatMonth(date)
  {
    FormatShape(date);
    RenderedDatesAreIso(date);
  }

  /**
   * The report's string range test on a stored date is the calendar test:
   * an expense saved by this page is in the range of two picked days exactly
   * when its day lies between them.
   */
  lemma StoredDatesFilterByCalendar(e: BusinessExpense, date: ValidDateTime, start: ValidDateTime, end: ValidDateTime)
    requires e.date == Format(date)
    ensures ExpensesReport.InRange(e, FormatDay(start), FormatDay(end)) <==>
      FieldsLe(Fields(start)[..3], Fields(date)[..3]) && FieldsLe(Fields(date)[..3], Fields(end)[..3])
  {
    FormatShape(date);
    FormatDayOrder(start, date);
    FormatDayOrder(date, end);
  }

  /**
   * The detail list's newest-first comparator, on two stored expense dates,
   * puts `a` first exactly when `b` is not later on the calendar, and ties
   * exactly the equal date-times, as the timestamp difference does.
   */
  lemma StoredDatesSortByCalendar(a: BusinessExpense, b: BusinessExpense, da: ValidDateTime, db: ValidDateTime)
    requires a.date == Format(da) && b.date == Format(db)
    ensures ExpensesReport.ByDateDescending(a, b) <= 0 <==> FieldsLe(Fields(db), Fields(da))
    ensures ExpensesReport.ByDateDescending(a, b) == 0 <==> da == db
  {
    FormatOrder(db, da);
    LexLeReflexive(a.date);
    if a.date == b.date {
      FormatInjective(da, db);
    }
  }

  // ---------------------------------------------------------------------------
  // The password inputs of the users page

  const PasswordRequired := "Please enter your password"
  const PasswordTooShort := "The password must be at least 6 characters long"
  const ConfirmRequired := "Please confirm your password"
  const Mismatch := "The passwords do not match"

  /**
   * The messages the password input shows: `required`, and `min: 6`,
   * which async-validator applies to non-empty strings only.
   */
  function PasswordErrors(v: Value): set<string> {
    (if Filled(v) then {} else {PasswordRequired}) +
    (if v.Str? && v.s != "" && |v.s| < 6 then {PasswordTooShort} else {})
  }

  /** `validateConfirmPassword`: an empty value first, then a value unlike the password. */
  function ValidateConfirmPassword(value: Value, password: Value): (r: Result<(), string>)
    ensures r.Ok? <==> Truthy(value) && value == password
    ensures !Truthy(value) ==> r == Err(ConfirmRequired)
  {
    if !Truthy(value) then Err(ConfirmRequired)
    else if value != password then Err(Mismatch)
    else Ok(())
  }

  /** The messages the confirmation input shows: `required`, then the validator. */
  function ConfirmErrors(value: Value, password: Value): set<string> {
    (if Filled(value) then {} else {ConfirmRequired}) +
    (match ValidateConfirmPassword(value, password) case Ok(_) => {} case Err(m) => {m})
  }

  /** A typed password is accepted exactly when it has six characters or more. */
  lemma PasswordAcceptedIff(text: string)
    ensures PasswordErrors(Str(text)) == {} <==> |text| >= 6
    ensures text == "" ==> PasswordErrors(Str(text)) == {PasswordRequired}
  {
    if text == "" {
      assert PasswordErrors(Str(text)) == {PasswordRequired};
    } else if |text| < 6 {
      assert PasswordTooShort in PasswordErrors(Str(text));
    }
  }

  /** A typed confirmation is accepted exactly when it is non-empty and equals the password. */
  lemma ConfirmAcceptedIff(text: string, password: Value)
    ensures ConfirmErrors(Str(text), password) == {} <==> text != "" && Str(text) == password
    ensures text == "" ==> ConfirmErrors(Str(text), password) == {ConfirmRequired}
    ensures text != "" && Str(text) != password ==> ConfirmErrors(Str(text), password) == {Mismatch}
  {
    if text == "" {
      assert ConfirmErrors(Str(text), password) == {ConfirmRequired};
    } else if Str(text) != password {
      assert ConfirmErrors(Str(text), password) == {Mismatch};
    }
  }
}
