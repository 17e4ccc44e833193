/**
 * The two edit dialogs of the contracts page. "Payments" toggles the four
 * paid flags of a contract's payment record and, behind the "extra days or
 * tons" checkbox, its two overage quantities. "Edit data" changes the dates,
 * the two statuses and the description and sends exactly those fields, with
 * the removal date nulled when it is missing or not a valid date.
 */
module ContractEdit {
  import opened Wrappers
  import opened Json
  import opened Text
  import opened Dates
  import opened Entities

  // ---------------------------------------------------------------------------
  // Payments

  const PaidFlags: seq<string> :=
    ["madePaymentCustomAmount", "madePaymentLandFillCost", "madePaymentTonsOverWeightAmount", "madePaymentDaysOverTimeAmount"]

  const Quantities: seq<string> := ["paymentTonsOverWeightAmount", "paymentDaysOverTimeAmount"]

  /** The dialog: its form store and the page's `extraDaysOrTons` state. */
  datatype PaymentsDialog = PaymentsDialog(form: map<string, Value>, extra: bool)

  /** The inputs on screen: the quantities only while the checkbox is ticked. */
  function PaymentsMounted(extra: bool): (names: seq<string>)
    ensures forall q :: q in Quantities ==> (q in names <==> extra)
  {
    ["fixContractID"] + PaidFlags + ["extraDaysOrTons"] + (if extra then Quantities else [])
  }

  /** The inputs that refuse to submit while empty. */
  function PaymentsRequired(extra: bool): seq<string> {
    if extra then Quantities else []
  }

  /** `handlePayments`: the record's flags and quantities, the checkbox cleared. */
  function OpenPayments(c: Contract): (d: PaymentsDialog)
    ensures !d.extra && Synced(d)
    ensures forall k :: k in PaidFlags + Quantities ==> k in d.form
  {
    var fc := c.fixContract;
    PaymentsDialog(map[
      "fixContractID" := Num(fc.id),
      "madePaymentCustomAmount" := Bool(fc.madePaymentCustomAmount),
      "madePaymentLandFillCost" := Bool(fc.madePaymentLandFillCost),
      "madePaymentTonsOverWeightAmount" := Bool(fc.madePaymentTonsOverWeightAmount),
      "madePaymentDaysOverTimeAmount" := Bool(fc.madePaymentDaysOverTimeAmount),
      "extraDaysOrTons" := Bool(false),
      "paymentTonsOverWeightAmount" := Num(fc.paymentTonsOverWeightAmount),
      "paymentDaysOverTimeAmount" := Num(fc.paymentDaysOverTimeAmount)], false)
  }

  /** What the user does in the dialog: tick the checkbox, or set another input on screen. */
  datatype PaymentsInput = Tick(checked: bool) | SetInput(name: string, value: Value)

  predicate Allowed(d: PaymentsDialog, i: PaymentsInput) {
    i.SetInput? ==> i.name in PaymentsMounted(d.extra) && i.name != "extraDaysOrTons" && i.name != "fixContractID"
  }

  /** The checkbox writes both the form store and the page state. */
  function PaymentsStep(d: PaymentsDialog, i: PaymentsInput): (e: PaymentsDialog)
    requires Allowed(d, i)
    ensures Synced(d) ==> Synced(e)
    ensures i.Tick? ==> e.extra == i.checked
    ensures forall k :: k in PaidFlags + Quantities && k in d.form ==> k in e.form
  {
    match i
    case Tick(b) => PaymentsDialog(d.form["extraDaysOrTons" := Bool(b)], b)
    case SetInput(name, v) => d.(form := d.form[name := v])
  }

  /** The page state and the checkbox in the form agree. */
  predicate Synced(d: PaymentsDialog) {
    FieldValue(d.form, "extraDaysOrTons") == Bool(d.extra)
  }

  /** Submitting: the empty required inputs, or what `handlePaymentsEdit` receives. */
  function SubmitPayments(d: PaymentsDialog): (r: Result<map<string, Value>, seq<string>>)
    ensures r.Ok? <==> Validates(d.form, PaymentsRequired(d.extra))
    ensures !d.extra ==> r.Ok?
    ensures r.Ok? ==> forall k :: k in r.value <==> k in PaymentsMounted(d.extra)
    ensures r.Ok? ==> forall q :: q in Quantities ==> (q in r.value <==> d.extra)
    ensures r.Ok? ==> forall k :: k in r.value ==> r.value[k] == FieldValue(d.form, k)
  {
    if !Validates(d.form, PaymentsRequired(d.extra)) then
      Err(MissingOf(d.form, PaymentsRequired(d.extra)))
    else Ok(Values(d.form, PaymentsMounted(d.extra)))
  }

  /** Opening the dialog and submitting it untouched sends the record's own flags and no quantities. */
  lemma UntouchedPayments(c: Contract)
    ensures var r := SubmitPayments(OpenPayments(c));
      r.Ok? && "madePaymentCustomAmount" in r.value && r.value["madePaymentCustomAmount"] == Bool(c.fixContract.madePaymentCustomAmount) &&
      "madePaymentLandFillCost" in r.value && r.value["madePaymentLandFillCost"] == Bool(c.fixContract.madePaymentLandFillCost) &&
      "madePaymentTonsOverWeightAmount" in r.value && r.value["madePaymentTonsOverWeightAmount"] == Bool(c.fixContract.madePaymentTonsOverWeightAmount) &&
      "madePaymentDaysOverTimeAmount" in r.value && r.value["madePaymentDaysOverTimeAmount"] == Bool(c.fixContract.madePaymentDaysOverTimeAmount) &&
      "paymentTonsOverWeightAmount" !in r.value && "paymentDaysOverTimeAmount" !in r.value
  {
    var d := OpenPayments(c);
    var fc := c.fixContract;
    var names := PaymentsMounted(false);
    assert names[1] == "madePaymentCustomAmount" && names[2] == "madePaymentLandFillCost";
    assert names[3] == "madePaymentTonsOverWeightAmount" && names[4] == "madePaymentDaysOverTimeAmount";
    OpenedFlags(c);
    Sent(d, "madePaymentCustomAmount");
    Sent(d, "madePaymentLandFillCost");
    Sent(d, "madePaymentTonsOverWeightAmount");
    Sent(d, "madePaymentDaysOverTimeAmount");
  }

  /** The dialog opens on the record's own flags. */
  lemma OpenedFlags(c: Contract)
    ensures var f := OpenPayments(c).form; var fc := c.fixContract;
      FieldValue(f, "madePaymentCustomAmount") == Bool(fc.madePaymentCustomAmount) &&
      FieldValue(f, "madePaymentLandFillCost") == Bool(fc.madePaymentLandFillCost) &&
      FieldValue(f, "madePaymentTonsOverWeightAmount") == Bool(fc.madePaymentTonsOverWeightAmount) &&
      FieldValue(f, "madePaymentDaysOverTimeAmount") == Bool(fc.madePaymentDaysOverTimeAmount)
  {
  }

  /** An accepted submission carries every mounted input with its stored value. */
  lemma Sent(d: PaymentsDialog, k: string)
    requires SubmitPayments(d).Ok? && k in PaymentsMounted(d.extra)
    ensures k in SubmitPayments(d).value && SubmitPayments(d).value[k] == FieldValue(d.form, k)
  {
  }

  /** Ticking the checkbox and submitting sends the record's quantities as well. */
  lemma TickedPayments(c: Contract)
    ensures var r := SubmitPayments(PaymentsStep(OpenPayments(c), Tick(true)));
      r.Ok? && "paymentTonsOverWeightAmount" in r.value && r.value["paymentTonsOverWeightAmount"] == Num(c.fixContract.paymentTonsOverWeightAmount) &&
      "paymentDaysOverTimeAmount" in r.value && r.value["paymentDaysOverTimeAmount"] == Num(c.fixContract.paymentDaysOverTimeAmount) &&
      "extraDaysOrTons" in r.value && r.value["extraDaysOrTons"] == Bool(true)
  {
    var t := PaymentsStep(OpenPayments(c), Tick(true));
    var names := PaymentsMounted(true);
    assert names[5] == "extraDaysOrTons" && names[6] == "paymentTonsOverWeightAmount" && names[7] == "paymentDaysOverTimeAmount";
    assert FieldValue(t.form, "paymentTonsOverWeightAmount") == Num(c.fixContract.paymentTonsOverWeightAmount);
    assert FieldValue(t.form, "paymentDaysOverTimeAmount") == Num(c.fixContract.paymentDaysOverTimeAmount);
    assert Validates(t.form, PaymentsRequired(true));
  }

  // ---------------------------------------------------------------------------
  // Edit data

  /** The form of the "Edit data" dialog; a date picker may be cleared to `null`. */
  datatype EditForm = EditForm(
    contractID: int,
    startDate: Option<Day>,
    endDate: Option<Day>,
    removalDate: Option<Day>,
    contractPaymentStatus: string,
    contractStatus: string,
    description: string)

  /** `esISO8601ConDayjs`: dayjs accepts it and it starts like `YYYY-MM-DD`. */
  predicate LooksIso(s: string, parse: string -> Day) {
    parse(s).At? && IsoPrefix(s)
  }

  /** `handleEditContract`: `dayjs(...)` of each date; the removal date only if it looks like one. */
  function OpenEdit(c: Contract, parse: string -> Day): (f: EditForm)
    ensures f.removalDate.Some? <==> LooksIso(c.removalDate, parse)
    ensures f.removalDate.Some? ==> f.removalDate.value.At?
  {
    EditForm(
      c.id,
      Some(parse(c.startDate)),
      Some(parse(c.endDate)),
      if LooksIso(c.removalDate, parse) then Some(parse(c.removalDate)) else None,
      c.contractPaymentStatus,
      c.contractStatus,
      c.description)
  }

  /** `d.format('YYYY-MM-DD')`; an invalid dayjs formats as "Invalid Date". */
  function DayText(d: Day): string {
    match d
    case Invalid => "Invalid Date"
    case At(date) => FormatDay(date)
  }

  /** What V8 throws when `.format` is called on a cleared date picker's `null`. */
  const NullDateError := "Cannot read properties of null (reading 'format')"

  const EditKeys: set<string> :=
    {"contractID", "startDate", "removalDate", "endDate", "contractPaymentStatus", "contractStatus", "description"}

  /** The body `handleContractUpdate` sends, or the error thrown while building it. */
  function EditPayload(f: EditForm): (r: Result<map<string, Value>, string>)
    ensures r.Err? <==> f.startDate.None? || f.endDate.None?
    ensures r.Ok? ==> r.value.Keys == EditKeys
    ensures r.Ok? ==> (r.value["removalDate"] == Null <==> f.removalDate.None? || f.removalDate.value.Invalid?)
    ensures r.Ok? && r.value["removalDate"] != Null ==>
      r.value["removalDate"] == Str(FormatDay(f.removalDate.value.date))
  {
    if f.startDate.None? || f.endDate.None? then Err(NullDateError)
    else
      var removal := if f.removalDate.Some? && f.removalDate.value.At? then Str(FormatDay(f.removalDate.value.date)) else Null;
      Ok(map[
        "contractID" := Num(f.contractID),
        "startDate" := Str(DayText(f.startDate.value)),
        "removalDate" := removal,
        "endDate" := Str(DayText(f.endDate.value)),
        "contractPaymentStatus" := Str(f.contractPaymentStatus),
        "contractStatus" := Str(f.contractStatus),
        "description" := Str(f.description)])
  }

  /**
   * A removal date this dialog saves comes back on the next opening, as long
   * as dayjs parses back the days it formats.
   */
  lemma SavedRemovalDateReopens(f: EditForm, c: Contract, parse: string -> Day)
    requires forall d: ValidDateTime :: parse(FormatDay(d)).At?
    requires EditPayload(f).Ok? && EditPayload(f).value["removalDate"] != Null
    requires Str(c.removalDate) == EditPayload(f).value["removalDate"]
    ensures OpenEdit(c, parse).removalDate.Some?
  {
    var d := f.removalDate.value.date;
    assert c.removalDate == FormatDay(d);
    RenderedDatesAreIso(d);
  }

  /** Opening and saving at once keeps the removal date exactly when the page accepted it. */
  lemma ReopenedRemovalDate(c: Contract, parse: string -> Day)
    ensures var r := EditPayload(OpenEdit(c, parse));
      r.Ok? && (r.value["removalDate"] != Null <==> LooksIso(c.removalDate, parse))
  {
  }
}
