/**
 * The four-step contract-creation wizard: customer, work address, dumpster
 * and fix, confirmation. Its state is the step index, the two selection
 * modes, the four selections, the draft sent to the backend (`formData`)
 * and the shared form store. Every user action is one atomic transition.
 */
module Wizard {
  import opened Wrappers
  import opened Json
  import opened Entities

  // ---------------------------------------------------------------------------
  // The draft and `updateFormData`

  /** The draft: one slot per key, objects for the customer and the work address. */
  type Draft = map<string, Value>

  const CustomerFieldNames: seq<string> :=
    ["name", "taxId", "homeAddress", "city", "state", "zipCode", "email", "phone", "description"]

  const WorkAddressFieldNames: seq<string> :=
    ["addressName", "address", "addressCity", "addressState", "contactName", "contactPhone", "addressZipCode"]

  const DetailsFieldNames: seq<string> := ["baseWeight", "startDate", "endDate", "description"]

  /** The fields a step's form refuses to submit while empty. */
  const CustomerRequired: seq<string> := ["name", "taxId", "homeAddress", "email", "phone"]
  const WorkAddressRequired: seq<string> := ["addressName", "address"]
  const DetailsRequired: seq<string> := ["baseWeight", "startDate", "endDate"]

  /** A form store in which every named field holds the empty string. */
  function Cleared(form: map<string, Value>, names: seq<string>): (r: map<string, Value>)
    ensures forall k :: k in r <==> k in form || k in names
    ensures forall k :: k in names ==> r[k] == Str("")
    ensures forall k :: k in form && k !in names ==> r[k] == form[k]
    decreases |names|
  {
    if |names| == 0 then form else Cleared(form[names[0] := Str("")], names[1..])
  }

  const BlankCustomer: map<string, Value> := map[
    "id" := Str(""), "name" := Str(""), "taxId" := Str(""), "homeAddress" := Str(""),
    "city" := Str(""), "state" := Str(""), "email" := Str(""), "phone" := Str(""),
    "zipCode" := Str(""), "description" := Str("")]

  const BlankWorkAddress: map<string, Value> := map[
    "id" := Str(""), "addressName" := Str(""), "address" := Str(""), "addressCity" := Str(""),
    "addressState" := Str(""), "addressZipCode" := Str(""), "contactName" := Str(""),
    "contactPhone" := Str("")]

  /** The draft the wizard starts with. */
  const InitialDraft: Draft := map[
    "Customer" := Obj(BlankCustomer),
    "WorkAddress" := Obj(BlankWorkAddress),
    "dumsterId" := Str(""),
    "fixId" := Str(""),
    "baseWeight" := Str(""),
    "startDate" := Str(""),
    "endDate" := Str(""),
    "description" := Str("")]

  /**
   * `updateFormData(slot, v)`: a slot holding a plain object gets `v`
   * spread over it; any other slot, or a missing one, is replaced by `v`.
   */
  function UpdateFormData(d: Draft, slot: string, v: Value): (r: Draft)
    ensures r.Keys == d.Keys + {slot}
    ensures forall k :: k in d && k != slot ==> r[k] == d[k]
    ensures slot in d && IsPlainObject(d[slot]) ==> r[slot] == Obj(Merge(d[slot].fields, v))
    ensures !(slot in d && IsPlainObject(d[slot])) ==> r[slot] == v
  {
    if slot in d && IsPlainObject(d[slot]) then d[slot := Obj(Merge(d[slot].fields, v))]
    else d[slot := v]
  }

  /** An object slot stays an object, whatever is merged into it. */
  lemma ObjectSlotStaysObject(d: Draft, slot: string, v: Value)
    requires slot in d && IsPlainObject(d[slot])
    ensures IsPlainObject(UpdateFormData(d, slot, v)[slot])
    ensures UpdateFormData(d, slot, v)[slot].fields.Keys == d[slot].fields.Keys + Spread(v).Keys
  {
  }

  /** After merging an object into an object slot, the slot reads back each of its fields. */
  lemma ObjectSlotTakesFields(d: Draft, slot: string, fields: map<string, Value>)
    ensures slot in d && IsPlainObject(d[slot]) ==>
      forall k :: k in fields ==> SlotField(UpdateFormData(d, slot, Obj(fields)), slot, k) == fields[k]
  {
  }

  /**
   * Merging is cumulative: a key the first update set, and the second one
   * does not mention, still holds the first update's value.
   */
  lemma MergeCumulative(d: Draft, slot: string, a: map<string, Value>, b: map<string, Value>, key: string)
    requires slot in d && IsPlainObject(d[slot])
    requires key in a && key !in b
    ensures var d2 := UpdateFormData(UpdateFormData(d, slot, Obj(a)), slot, Obj(b));
      key in d2[slot].fields && d2[slot].fields[key] == a[key]
  {
    var d1 := UpdateFormData(d, slot, Obj(a));
    assert IsPlainObject(d1[slot]);
  }

  /** Merging the same object twice is merging it once. */
  lemma MergeIdempotent(d: Draft, slot: string, v: Value)
    requires slot in d && IsPlainObject(d[slot])
    ensures UpdateFormData(UpdateFormData(d, slot, v), slot, v) == UpdateFormData(d, slot, v)
  {
    var d1 := UpdateFormData(d, slot, v);
    assert d1[slot].fields + Spread(v) == d1[slot].fields;
  }

  /** Field `key` of slot `slot`, `undefined` when either is missing. */
  function SlotField(d: Draft, slot: string, key: string): Value {
    if slot in d then Get(d[slot], key) else Undefined
  }

  // ---------------------------------------------------------------------------
  // Wizard state

  datatype Mode = Existing | New

  datatype State = State(
    step: nat,
    customerMode: Mode,
    workAddressMode: Mode,
    customer: Option<Customer>,
    workAddress: Option<WorkAddress>,
    dumpster: Option<Dumpster>,
    fix: Option<Fix>,
    draft: Draft,
    form: map<string, Value>)

  /** The form store once the first step's form has mounted over an empty store. */
  const InitialForm: map<string, Value> := BlankCustomer

  const Initial: State := State(0, Existing, New, None, None, None, None, InitialDraft, InitialForm)

  /** The index of the last (confirmation) step. */
  const LastStep: nat := 3

  /** How `createContract` settled: a saved contract, a thrown error, or a swallowed failure. */
  datatype Creation = Created | CreateFailed(message: string) | CreateSwallowed

  datatype Event =
    | SelectCustomer(c: Customer)
    | SelectWorkAddress(w: WorkAddress)
    | SelectDumpster(dumpster: Dumpster)
    | SelectFix(fix: Fix)
    | ChangeCustomerMode(mode: Mode)
    | ChangeWorkAddressMode(mode: Mode)
    | EditField(name: string, value: Value)
    | PickStartDate(day: string)
    | PickEndDate(day: string)
    | SubmitCustomer
    | SubmitWorkAddress
    | SubmitDetails
    | Previous
    | Confirm(outcome: Creation)

  datatype Notice = Quiet | Success(text: string) | Failure(text: string)

  datatype Transition = Transition(next: State, notice: Notice)

  /** The two readings of the customer-mode handler; see `OnChangeCustomerModeAsWritten`. */
  datatype Revision = AsWritten | Corrected

  // ---------------------------------------------------------------------------
  // When an action is possible

  /** The existing-work-address option is greyed out without a customer that has addresses. */
  predicate ExistingAddressOffered(s: State) {
    s.customer.Some? && |s.customer.value.workAddress| > 0
  }

  /** The step-1 Next button. */
  predicate CustomerNextEnabled(s: State) {
    !(s.customerMode == Existing && s.customer.None?)
  }

  /** The step-2 Next button. */
  predicate WorkAddressNextEnabled(s: State) {
    !(s.workAddressMode == Existing && s.workAddress.None?)
  }

  /** The step-3 Next button. */
  predicate DetailsNextEnabled(s: State) {
    s.dumpster.Some? && s.fix.Some?
  }

  /** The fields the step on screen has mounted. */
  function MountedFields(s: State): seq<string> {
    if s.step == 0 then (if s.customerMode == New then CustomerFieldNames else [])
    else if s.step == 1 then (if s.workAddressMode == New then WorkAddressFieldNames else [])
    else if s.step == 2 then DetailsFieldNames
    else []
  }

  /** The fields whose `required` rule the step's form checks. */
  function RequiredFields(s: State): seq<string> {
    if s.step == 0 then (if s.customerMode == New then CustomerRequired else [])
    else if s.step == 1 then (if s.workAddressMode == New then WorkAddressRequired else [])
    else if s.step == 2 then DetailsRequired
    else []
  }

  /**
   * What the step's form checks before `onFinish` runs: the `required` rule
   * on each required field, and the `type: 'email'` rule on the email field
   * while it is mounted.
   */
  predicate FormValidates(s: State) {
    && Validates(s.form, RequiredFields(s))
    && ("email" in MountedFields(s) ==> EmailRule(FieldValue(s.form, "email")))
  }

  /** Whether the control behind an event is on screen and enabled. */
  predicate Enabled(s: State, e: Event) {
    match e
    case SelectCustomer(_) => s.step == 0 && s.customerMode == Existing
    case SelectWorkAddress(w) =>
      s.step == 1 && s.workAddressMode == Existing && s.customer.Some? && w in s.customer.value.workAddress
    case SelectDumpster(_) => s.step == 2
    case SelectFix(_) => s.step == 2
    case ChangeCustomerMode(_) => s.step == 0
    case ChangeWorkAddressMode(m) => s.step == 1 && (m == Existing ==> ExistingAddressOffered(s))
    case EditField(name, _) => name in MountedFields(s)
    case PickStartDate(_) => s.step == 2
    case PickEndDate(_) => s.step == 2
    case SubmitCustomer => s.step == 0 && CustomerNextEnabled(s) && FormValidates(s)
    case SubmitWorkAddress => s.step == 1 && WorkAddressNextEnabled(s) && FormValidates(s)
    case SubmitDetails => s.step == 2 && DetailsNextEnabled(s) && FormValidates(s)
    case Previous => 1 <= s.step <= LastStep
    case Confirm(_) => s.step == LastStep
  }

  // ---------------------------------------------------------------------------
  // Handlers

  /** Picking a customer stores it in the draft and forgets the chosen work address. */
  function OnSelectCustomer(s: State, c: Customer): (r: State)
    ensures r.customer == Some(c) && r.workAddress == None
    ensures "Customer" in s.draft && IsPlainObject(s.draft["Customer"]) ==> SlotField(r.draft, "Customer", "id") == Num(c.id)
    ensures forall k :: k in s.draft && k != "Customer" ==> k in r.draft && r.draft[k] == s.draft[k]
    ensures r.step == s.step && r.form == s.form
  {
    s.(customer := Some(c), workAddress := None, draft := UpdateFormData(s.draft, "Customer", CustomerValue(c)))
  }

  function OnSelectWorkAddress(s: State, w: WorkAddress): (r: State)
    ensures r.workAddress == Some(w) && r.customer == s.customer
    ensures forall k :: k in s.draft && k != "WorkAddress" ==> k in r.draft && r.draft[k] == s.draft[k]
    ensures r.step == s.step
  {
    s.(workAddress := Some(w), draft := UpdateFormData(s.draft, "WorkAddress", WorkAddressValue(w)))
  }

  /** The `dumsterId` slot (spelled so in the source) and `fixId` slot hold the chosen ids. */
  function OnSelectDumpster(s: State, d: Dumpster): (r: State)
    ensures r.dumpster == Some(d)
    ensures "dumsterId" in r.draft
    ensures !("dumsterId" in s.draft && IsPlainObject(s.draft["dumsterId"])) ==> r.draft["dumsterId"] == Num(d.id)
    ensures forall k :: k in s.draft && k != "dumsterId" ==> k in r.draft && r.draft[k] == s.draft[k]
  {
    s.(dumpster := Some(d), draft := UpdateFormData(s.draft, "dumsterId", Num(d.id)))
  }

  function OnSelectFix(s: State, f: Fix): (r: State)
    ensures r.fix == Some(f)
    ensures "fixId" in r.draft
    ensures !("fixId" in s.draft && IsPlainObject(s.draft["fixId"])) ==> r.draft["fixId"] == Num(f.id)
    ensures forall k :: k in s.draft && k != "fixId" ==> k in r.draft && r.draft[k] == s.draft[k]
  {
    s.(fix := Some(f), draft := UpdateFormData(s.draft, "fixId", Num(f.id)))
  }

  /**
   * The customer-mode radio as the source has it: the work-address fields
   * are cleared; switching to "new" also drops the customer and clears the
   * customer fields, but keeps the chosen work address.
   */
  function OnChangeCustomerModeAsWritten(s: State, m: Mode): (r: State)
    ensures r.customerMode == m && r.workAddress == s.workAddress && r.draft == s.draft
    ensures m == New ==> r.customer == None
    ensures m == Existing ==> r.customer == s.customer
    ensures forall k :: k in WorkAddressFieldNames ==> k in r.form && r.form[k] == Str("")
    ensures m == New ==> forall k :: k in CustomerFieldNames ==> k in r.form && r.form[k] == Str("")
  {
    var form := Cleared(s.form, WorkAddressFieldNames);
    if m == New then s.(customerMode := m, customer := None, form := Cleared(form, CustomerFieldNames))
    else s.(customerMode := m, form := form)
  }

  /** The same handler that also forgets the work address when the customer is dropped. */
  function OnChangeCustomerMode(s: State, m: Mode): (r: State)
    ensures r.customerMode == m && r.draft == s.draft
    ensures m == New ==> r.customer == None && r.workAddress == None
    ensures m == Existing ==> r.customer == s.customer && r.workAddress == s.workAddress
    ensures forall k :: k in WorkAddressFieldNames ==> k in r.form && r.form[k] == Str("")
    ensures m == New ==> forall k :: k in CustomerFieldNames ==> k in r.form && r.form[k] == Str("")
  {
    var r := OnChangeCustomerModeAsWritten(s, m);
    if m == New then r.(workAddress := None) else r
  }

  function OnChangeWorkAddressMode(s: State, m: Mode): (r: State)
    ensures r.workAddressMode == m && r.customer == s.customer && r.draft == s.draft
    ensures m == New ==> r.workAddress == None && forall k :: k in WorkAddressFieldNames ==> k in r.form && r.form[k] == Str("")
    ensures m == Existing ==> r.workAddress == s.workAddress && r.form == s.form
  {
    if m == New then s.(workAddressMode := m, workAddress := None, form := Cleared(s.form, WorkAddressFieldNames))
    else s.(workAddressMode := m)
  }

  /**
   * Step-1 submit: the mounted fields plus the selected customer's id (or
   * `null`) are merged into the customer slot; the work-address mode
   * becomes "existing" exactly when the chosen customer has addresses.
   */
  function SubmitCustomerStep(s: State): (r: State)
    ensures r.step == s.step + 1
    ensures r.workAddressMode == Existing <==> ExistingAddressOffered(s)
    ensures "Customer" in s.draft && IsPlainObject(s.draft["Customer"]) ==>
      SlotField(r.draft, "Customer", "id") == (if s.customer.Some? then Num(s.customer.value.id) else Null)
    ensures forall k :: k in s.draft && k != "Customer" ==> k in r.draft && r.draft[k] == s.draft[k]
    ensures r.customer == s.customer && r.workAddress == s.workAddress
  {
    var id := if s.customer.Some? then Num(s.customer.value.id) else Null;
    var values := Values(s.form, MountedFields(s))["id" := id];
    s.(step := s.step + 1,
       draft := UpdateFormData(s.draft, "Customer", Obj(values)),
       workAddressMode := if ExistingAddressOffered(s) then Existing else New)
  }

  /**
   * Step-2 submit: the mounted fields, the selected address's id (or
   * `null`) and the customer slot's id when truthy (else `null`) are merged
   * into the work-address slot.
   */
  function SubmitWorkAddressStep(s: State): (r: State)
    ensures r.step == s.step + 1
    ensures "WorkAddress" in s.draft && IsPlainObject(s.draft["WorkAddress"]) ==>
      SlotField(r.draft, "WorkAddress", "id") == (if s.workAddress.Some? then Num(s.workAddress.value.id) else Null) &&
      SlotField(r.draft, "WorkAddress", "customerId") ==
        (if Truthy(SlotField(s.draft, "Customer", "id")) then SlotField(s.draft, "Customer", "id") else Null)
    ensures "WorkAddress" in s.draft && IsPlainObject(s.draft["WorkAddress"]) ==>
      forall k :: k in MountedFields(s) && k != "id" && k != "customerId" ==>
        SlotField(r.draft, "WorkAddress", k) == FieldValue(s.form, k)
    ensures forall k :: k in s.draft && k != "WorkAddress" ==> k in r.draft && r.draft[k] == s.draft[k]
    ensures r.customer == s.customer && r.workAddress == s.workAddress
  {
    var customerId := SlotField(s.draft, "Customer", "id");
    var mounted := Values(s.form, MountedFields(s));
    var values := mounted
      ["id" := if s.workAddress.Some? then Num(s.workAddress.value.id) else Null]
      ["customerId" := if Truthy(customerId) then customerId else Null];
    assert forall k :: k in mounted && k != "id" && k != "customerId" ==> k in values && values[k] == mounted[k];
    ObjectSlotTakesFields(s.draft, "WorkAddress", values);
    s.(step := s.step + 1, draft := UpdateFormData(s.draft, "WorkAddress", Obj(values)))
  }

  /** Step-3 submit: the description and base weight slots take the form's values. */
  function SubmitDetailsStep(s: State): (r: State)
    ensures r.step == s.step + 1
    ensures "description" in r.draft && "baseWeight" in r.draft
    ensures !("description" in s.draft && IsPlainObject(s.draft["description"])) ==>
      r.draft["description"] == FieldValue(s.form, "description")
    ensures !("baseWeight" in s.draft && IsPlainObject(s.draft["baseWeight"])) ==>
      r.draft["baseWeight"] == FieldValue(s.form, "baseWeight")
    ensures forall k :: k in s.draft && k != "description" && k != "baseWeight" ==> k in r.draft && r.draft[k] == s.draft[k]
  {
    var d := UpdateFormData(s.draft, "description", FieldValue(s.form, "description"));
    s.(step := s.step + 1, draft := UpdateFormData(d, "baseWeight", FieldValue(s.form, "baseWeight")))
  }

  /** A date picker writes the formatted day (or "" when cleared) to its slot. */
  function PickDate(s: State, slot: string, day: string): (r: State)
    ensures forall k :: k in s.draft && k != slot ==> k in r.draft && r.draft[k] == s.draft[k]
    ensures slot in r.draft && slot in r.form
    ensures !(slot in s.draft && IsPlainObject(s.draft[slot])) ==> r.draft[slot] == Str(day)
    ensures r.form[slot] == (if day == "" then Null else Str(day))
    ensures r.step == s.step
  {
    s.(draft := UpdateFormData(s.draft, slot, Str(day)),
       form := s.form[slot := if day == "" then Null else Str(day)])
  }

  // ---------------------------------------------------------------------------
  // The form's initial values

  /** A draft slot read as `initialValues`: its keys and values, as `Object.keys` lists them. */
  function SlotValues(d: Draft, slot: string): map<string, Value> {
    if slot in d then Spread(d[slot]) else map[]
  }

  /**
   * The `initialValues` of the form the step on screen renders: the
   * customer slot on the first step, the work-address slot on the second
   * and third; the confirmation step renders no form.
   */
  function StepInitialValues(s: State): Option<map<string, Value>> {
    if s.step == 0 then Some(SlotValues(s.draft, "Customer"))
    else if s.step == 1 || s.step == 2 then Some(SlotValues(s.draft, "WorkAddress"))
    else None
  }

  /**
   * The page after it renders again. Each step is a component declared
   * inside the page, so every render mounts its form afresh, and the form
   * merges its `initialValues` under the store.
   */
  function Render(s: State): (r: State)
    ensures r.(form := s.form) == s
    ensures forall k :: k in s.form ==> k in r.form && r.form[k] == s.form[k]
    ensures StepInitialValues(s).Some? ==> forall k :: k in StepInitialValues(s).value && k !in s.form ==>
      k in r.form && r.form[k] == StepInitialValues(s).value[k]
    ensures StepInitialValues(s).Some? ==> r.form.Keys == s.form.Keys + StepInitialValues(s).value.Keys
    ensures StepInitialValues(s).None? ==> r == s
  {
    match StepInitialValues(s)
    case Some(initial) => s.(form := MergeInitial(initial, s.form))
    case None => s
  }

  /** The first render puts the customer slot's blanks into the empty store. */
  lemma InitialFormIsMounted()
    ensures InitialForm == MergeInitial(SlotValues(InitialDraft, "Customer"), map[])
  {
  }

  /** One user action. A control that is hidden or disabled does nothing. */
  function Apply(s: State, e: Event, rev: Revision): (t: Transition)
    ensures !Enabled(s, e) ==> t == Transition(s, Quiet)
    ensures e.Previous? && Enabled(s, e) ==> t.next == Render(s.(step := s.step - 1))
    ensures e.EditField? && Enabled(s, e) ==> t.next == s.(form := s.form[e.name := e.value])
    ensures Enabled(s, e) && e.Confirm? && e.outcome.CreateFailed? ==> t.next == s && t.notice == Failure(e.outcome.message)
    ensures Enabled(s, e) && e.Confirm? && !e.outcome.CreateFailed? ==>
      t.next == s.(form := SlotValues(s.draft, "WorkAddress"))
    ensures t.next.step == s.step || t.next.step == s.step + 1 || t.next.step + 1 == s.step
  {
    if !Enabled(s, e) then Transition(s, Quiet)
    else
      match e
      case SelectCustomer(c) => Transition(Render(OnSelectCustomer(s, c)), Quiet)
      case SelectWorkAddress(w) => Transition(Render(OnSelectWorkAddress(s, w)), Quiet)
      case SelectDumpster(d) => Transition(Render(OnSelectDumpster(s, d)), Quiet)
      case SelectFix(f) => Transition(Render(OnSelectFix(s, f)), Quiet)
      case ChangeCustomerMode(m) =>
        Transition(Render(if rev == AsWritten then OnChangeCustomerModeAsWritten(s, m) else OnChangeCustomerMode(s, m)), Quiet)
      case ChangeWorkAddressMode(m) => Transition(Render(OnChangeWorkAddressMode(s, m)), Quiet)
      // Typing changes only the form store, which does not render the page.
      case EditField(name, v) => Transition(s.(form := s.form[name := v]), Quiet)
      case PickStartDate(day) => Transition(Render(PickDate(s, "startDate", day)), Quiet)
      case PickEndDate(day) => Transition(Render(PickDate(s, "endDate", day)), Quiet)
      case SubmitCustomer => Transition(Render(SubmitCustomerStep(s)), Quiet)
      case SubmitWorkAddress => Transition(Render(SubmitWorkAddressStep(s)), Quiet)
      case SubmitDetails => Transition(Render(SubmitDetailsStep(s)), Quiet)
      case Previous => Transition(Render(s.(step := s.step - 1)), Quiet)
      case Confirm(outcome) =>
        // `resetFields` restores the `initialValues` of the last form on
        // screen, the details step's: the work-address slot, which no
        // event since that render has changed.
        if outcome.CreateFailed? then Transition(s, Failure(outcome.message))
        else Transition(s.(form := SlotValues(s.draft, "WorkAddress")), Success("Contract created successfully"))
  }

  /** The state after a sequence of actions. */
  function Run(s: State, es: seq<Event>, rev: Revision): State
    decreases |es|
  {
    if |es| == 0 then s else Run(Apply(s, es[0], rev).next, es[1..], rev)
  }

  // ---------------------------------------------------------------------------
  // Invariants

  /** The id the customer slot holds, as step 1 leaves it. */
  function SelectedCustomerId(s: State): Value {
    if s.customer.Some? then Num(s.customer.value.id) else Null
  }

  function SelectedAddressId(s: State): Value {
    if s.workAddress.Some? then Num(s.workAddress.value.id) else Null
  }

  /** What holds in every state the corrected wizard can reach. */
  ghost predicate Inv(s: State) {
    && s.step <= LastStep
    && "Customer" in s.draft && IsPlainObject(s.draft["Customer"])
    && "WorkAddress" in s.draft && IsPlainObject(s.draft["WorkAddress"])
    && (s.customerMode == New ==> s.customer.None?)
    && (s.step >= 1 && s.customerMode == Existing ==> s.customer.Some?)
    && (s.workAddress.Some? ==> s.customer.Some? && s.workAddress.value in s.customer.value.workAddress)
    && (s.step >= 1 ==> SlotField(s.draft, "Customer", "id") == SelectedCustomerId(s))
    && (s.step >= 2 ==> SlotField(s.draft, "WorkAddress", "id") == SelectedAddressId(s))
    && (s.step >= 2 ==>
          SlotField(s.draft, "WorkAddress", "customerId") ==
          (if Truthy(SelectedCustomerId(s)) then SelectedCustomerId(s) else Null))
  }

  lemma InitialInv()
    ensures Inv(Initial)
  {
  }

  lemma SelectCustomerKeepsInv(s: State, c: Customer)
    requires Inv(s) && Enabled(s, SelectCustomer(c))
    ensures Inv(OnSelectCustomer(s, c))
  {
    ObjectSlotStaysObject(s.draft, "Customer", CustomerValue(c));
  }

  lemma SelectWorkAddressKeepsInv(s: State, w: WorkAddress)
    requires Inv(s) && Enabled(s, SelectWorkAddress(w))
    ensures Inv(OnSelectWorkAddress(s, w))
  {
    ObjectSlotStaysObject(s.draft, "WorkAddress", WorkAddressValue(w));
  }

  lemma SubmitCustomerKeepsInv(s: State)
    requires Inv(s) && Enabled(s, SubmitCustomer)
    ensures Inv(SubmitCustomerStep(s))
  {
    var values := Values(s.form, MountedFields(s))["id" := SelectedCustomerId(s)];
    ObjectSlotStaysObject(s.draft, "Customer", Obj(values));
  }

  lemma SubmitWorkAddressKeepsInv(s: State)
    requires Inv(s) && Enabled(s, SubmitWorkAddress)
    ensures Inv(SubmitWorkAddressStep(s))
  {
    var customerId := SlotField(s.draft, "Customer", "id");
    var values := Values(s.form, MountedFields(s))
      ["id" := SelectedAddressId(s)]
      ["customerId" := if Truthy(customerId) then customerId else Null];
    ObjectSlotStaysObject(s.draft, "WorkAddress", Obj(values));
  }

  lemma SubmitDetailsKeepsInv(s: State)
    requires Inv(s) && Enabled(s, SubmitDetails)
    ensures Inv(SubmitDetailsStep(s))
  {
  }

  lemma CustomerModeKeepsInv(s: State, m: Mode)
    requires Inv(s) && Enabled(s, ChangeCustomerMode(m))
    ensures Inv(OnChangeCustomerMode(s, m))
  {
    var r := OnChangeCustomerMode(s, m);
    assert r.draft == s.draft && r.step == 0;
  }

  lemma WorkAddressModeKeepsInv(s: State, m: Mode)
    requires Inv(s) && Enabled(s, ChangeWorkAddressMode(m))
    ensures Inv(OnChangeWorkAddressMode(s, m))
  {
    var r := OnChangeWorkAddressMode(s, m);
    assert r.draft == s.draft && r.step == 1 && r.customer == s.customer;
  }

  /** A render touches only the form store, which the invariant does not mention. */
  lemma RenderKeepsInv(s: State)
    requires Inv(s)
    ensures Inv(Render(s))
  {
    FormOnlyKeepsInv(s, Render(s).form);
  }

  lemma FormOnlyKeepsInv(s: State, form: map<string, Value>)
    requires Inv(s)
    ensures Inv(s.(form := form))
  {
  }

  /** Picking something keeps the invariant. */
  lemma SelectionKeepsInv(s: State, e: Event)
    requires Inv(s) && Enabled(s, e)
    requires e.SelectCustomer? || e.SelectWorkAddress? || e.SelectDumpster? || e.SelectFix?
    ensures Inv(Apply(s, e, Corrected).next)
  {
    var r := Apply(s, e, Corrected).next;
    match e
    case SelectCustomer(c) =>
      assert r == Render(OnSelectCustomer(s, c));
      SelectCustomerKeepsInv(s, c);
      RenderKeepsInv(OnSelectCustomer(s, c));
    case SelectWorkAddress(w) =>
      assert r == Render(OnSelectWorkAddress(s, w));
      SelectWorkAddressKeepsInv(s, w);
      RenderKeepsInv(OnSelectWorkAddress(s, w));
    case SelectDumpster(d) =>
      assert r == Render(OnSelectDumpster(s, d));
      RenderKeepsInv(OnSelectDumpster(s, d));
    case SelectFix(f) =>
      assert r == Render(OnSelectFix(s, f));
      RenderKeepsInv(OnSelectFix(s, f));
  }

  /** Submitting a step keeps the invariant. */
  lemma SubmitKeepsInv(s: State, e: Event)
    requires Inv(s) && Enabled(s, e)
    requires e.SubmitCustomer? || e.SubmitWorkAddress? || e.SubmitDetails?
    ensures Inv(Apply(s, e, Corrected).next)
  {
    var r := Apply(s, e, Corrected).next;
    match e
    case SubmitCustomer =>
      assert r == Render(SubmitCustomerStep(s));
      SubmitCustomerKeepsInv(s);
      RenderKeepsInv(SubmitCustomerStep(s));
    case SubmitWorkAddress =>
      assert r == Render(SubmitWorkAddressStep(s));
      SubmitWorkAddressKeepsInv(s);
      RenderKeepsInv(SubmitWorkAddressStep(s));
    case SubmitDetails =>
      assert r == Render(SubmitDetailsStep(s));
      SubmitDetailsKeepsInv(s);
      RenderKeepsInv(SubmitDetailsStep(s));
  }

  /** Mode switches, typing, date picks, going back and confirming keep the invariant. */
  lemma OtherActionKeepsInv(s: State, e: Event)
    requires Inv(s) && Enabled(s, e)
    requires !(e.SelectCustomer? || e.SelectWorkAddress? || e.SelectDumpster? || e.SelectFix?)
    requires !(e.SubmitCustomer? || e.SubmitWorkAddress? || e.SubmitDetails?)
    ensures Inv(Apply(s, e, Corrected).next)
  {
    var r := Apply(s, e, Corrected).next;
    match e
    case ChangeCustomerMode(m) =>
      assert r == Render(OnChangeCustomerMode(s, m));
      CustomerModeKeepsInv(s, m);
      RenderKeepsInv(OnChangeCustomerMode(s, m));
    case ChangeWorkAddressMode(m) =>
      assert r == Render(OnChangeWorkAddressMode(s, m));
      WorkAddressModeKeepsInv(s, m);
      RenderKeepsInv(OnChangeWorkAddressMode(s, m));
    case EditField(name, v) =>
      FormOnlyKeepsInv(s, s.form[name := v]);
    case PickStartDate(day) =>
      assert r == Render(PickDate(s, "startDate", day));
      RenderKeepsInv(PickDate(s, "startDate", day));
    case PickEndDate(day) =>
      assert r == Render(PickDate(s, "endDate", day));
      RenderKeepsInv(PickDate(s, "endDate", day));
    case Previous =>
      assert Inv(s.(step := s.step - 1));
      RenderKeepsInv(s.(step := s.step - 1));
    case Confirm(outcome) =>
      FormOnlyKeepsInv(s, SlotValues(s.draft, "WorkAddress"));
  }

  /** Every action of the corrected wizard keeps the invariant. */
  lemma ApplyKeepsInv(s: State, e: Event)
    requires Inv(s)
    ensures Inv(Apply(s, e, Corrected).next)
  {
    if !Enabled(s, e) {
    } else if e.SelectCustomer? || e.SelectWorkAddress? || e.SelectDumpster? || e.SelectFix? {
      SelectionKeepsInv(s, e);
    } else if e.SubmitCustomer? || e.SubmitWorkAddress? || e.SubmitDetails? {
      SubmitKeepsInv(s, e);
    } else {
      OtherActionKeepsInv(s, e);
    }
  }

  lemma {:induction false} RunKeepsInv(s: State, es: seq<Event>)
    requires Inv(s)
    ensures Inv(Run(s, es, Corrected))
    decreases |es|
  {
    if |es| > 0 {
      ApplyKeepsInv(s, es[0]);
      RunKeepsInv(Apply(s, es[0], Corrected).next, es[1..]);
    }
  }

  /**
   * Whatever the user does, the step index stays in 0..3 and a work
   * address sent with an id belongs to the customer sent with it.
   */
  lemma ReachableStatesAreConsistent(es: seq<Event>)
    ensures var s := Run(Initial, es, Corrected);
      s.step <= LastStep &&
      (s.step >= 2 && SlotField(s.draft, "WorkAddress", "id") != Null ==>
        s.customer.Some? && SlotField(s.draft, "Customer", "id") == Num(s.customer.value.id) &&
        exists w :: w in s.customer.value.workAddress && SlotField(s.draft, "WorkAddress", "id") == Num(w.id))
  {
    RunKeepsInv(Initial, es);
  }

  /** Running two sequences of actions one after the other. */
  lemma {:induction false} RunSplit(s: State, a: seq<Event>, b: seq<Event>, rev: Revision)
    ensures Run(s, a + b, rev) == Run(Run(s, a, rev), b, rev)
    decreases |a|
  {
    if |a| > 0 {
      var s1 := Apply(s, a[0], rev).next;
      assert (a + b)[0] == a[0];
      assert (a + b)[1..] == a[1..] + b;
      assert Run(s, a + b, rev) == Run(s1, a[1..] + b, rev);
      assert Run(s, a, rev) == Run(s1, a[1..], rev);
      RunSplit(s1, a[1..], b, rev);
    } else {
      assert a + b == b;
    }
  }

  /** One action, then the rest. */
  /** A run is its first event, the events up to `k`, and the last one. */
  lemma RunThrough(s: State, es: seq<Event>, k: nat, rev: Revision)
    requires 1 <= k && |es| == k + 1
    ensures Run(s, es, rev) == Apply(Run(Apply(s, es[0], rev).next, es[1..k], rev), es[k], rev).next
  {
    var s1 := Apply(s, es[0], rev).next;
    RunCons(s, es[0], es[1..], rev);
    assert es == [es[0]] + es[1..];
    assert es[1..] == es[1..k] + [es[k]];
    RunSplit(s1, es[1..k], [es[k]], rev);
    RunCons(Run(s1, es[1..k], rev), es[k], [], rev);
  }

  lemma RunCons(s: State, e: Event, es: seq<Event>, rev: Revision)
    ensures Run(s, [e] + es, rev) == Run(Apply(s, e, rev).next, es, rev)
  {
    assert ([e] + es)[1..] == es;
  }

  /** Choosing customer `a`, going on, choosing its address `w` and coming back. */
  function PickThenReturn(a: Customer, w: WorkAddress): seq<Event> {
    [SelectCustomer(a), SubmitCustomer, SelectWorkAddress(w), Previous]
  }

  /** Switching to a new customer, filling in its required fields and going on. */
  function SwitchToNewCustomer(text: Value): seq<Event> {
    [ChangeCustomerMode(New), EditField("name", text), EditField("taxId", text), EditField("homeAddress", text),
     EditField("email", text), EditField("phone", text), SubmitCustomer]
  }

  /** Filling in a new work address and going on. */
  function SubmitNewAddress(text: Value): seq<Event> {
    [EditField("addressName", text), EditField("address", text), SubmitWorkAddress]
  }

  /** The facts about a state that the counterexample walk carries from step to step. */
  ghost predicate Shaped(s: State) {
    "Customer" in s.draft && IsPlainObject(s.draft["Customer"]) &&
    "WorkAddress" in s.draft && IsPlainObject(s.draft["WorkAddress"])
  }

  lemma StepSelectCustomer(a: Customer)
    ensures var r := Apply(Initial, SelectCustomer(a), AsWritten).next;
      Shaped(r) && r.step == 0 && r.customerMode == Existing && r.customer == Some(a)
  {
    InitialInv();
    assert Apply(Initial, SelectCustomer(a), AsWritten).next == Render(OnSelectCustomer(Initial, a));
    SelectCustomerKeepsInv(Initial, a);
  }

  lemma StepSubmitExisting(s: State)
    requires Shaped(s) && s.step == 0 && s.customerMode == Existing && s.customer.Some?
    requires |s.customer.value.workAddress| > 0
    ensures var r := Apply(s, SubmitCustomer, AsWritten).next;
      Shaped(r) && r.step == 1 && r.workAddressMode == Existing && r.customerMode == Existing && r.customer == s.customer
  {
    assert RequiredFields(s) == [];
    var r := SubmitCustomerStep(s);
    assert Apply(s, SubmitCustomer, AsWritten).next == Render(r);
    ObjectSlotStaysObject(s.draft, "Customer", Obj(Values(s.form, MountedFields(s))["id" := SelectedCustomerId(s)]));
  }

  lemma StepSelectWorkAddress(s: State, w: WorkAddress)
    requires Shaped(s) && s.step == 1 && s.workAddressMode == Existing && s.customer.Some?
    requires w in s.customer.value.workAddress
    ensures var r := Apply(s, SelectWorkAddress(w), AsWritten).next;
      Shaped(r) && r.step == 1 && r.customerMode == s.customerMode && r.customer == s.customer && r.workAddress == Some(w)
  {
    var r := OnSelectWorkAddress(s, w);
    assert Apply(s, SelectWorkAddress(w), AsWritten).next == Render(r);
    ObjectSlotStaysObject(s.draft, "WorkAddress", WorkAddressValue(w));
  }

  lemma PickThenReturnReaches(a: Customer, w: WorkAddress)
    requires w in a.workAddress
    ensures var s := Run(Initial, PickThenReturn(a, w), AsWritten);
      Shaped(s) && s.step == 0 && s.customerMode == Existing && s.customer == Some(a) && s.workAddress == Some(w)
  {
    StepSelectCustomer(a);
    var s1 := Apply(Initial, SelectCustomer(a), AsWritten).next;
    StepSubmitExisting(s1);
    var s2 := Apply(s1, SubmitCustomer, AsWritten).next;
    StepSelectWorkAddress(s2, w);
    var s3 := Apply(s2, SelectWorkAddress(w), AsWritten).next;
    assert Enabled(s3, Previous);
    var s4 := Apply(s3, Previous, AsWritten).next;
    assert s4.step == 0 && s4.customer == s3.customer && s4.draft == s3.draft;
    RunCons(Initial, SelectCustomer(a), [SubmitCustomer, SelectWorkAddress(w), Previous], AsWritten);
    RunCons(s1, SubmitCustomer, [SelectWorkAddress(w), Previous], AsWritten);
    RunCons(s2, SelectWorkAddress(w), [Previous], AsWritten);
    RunCons(s3, Previous, [], AsWritten);
  }

  lemma StepNewCustomerAsWritten(s: State)
    requires Shaped(s) && s.step == 0
    ensures var r := Apply(s, ChangeCustomerMode(New), AsWritten).next;
      Shaped(r) && r.step == 0 && r.customerMode == New && r.customer == None && r.workAddress == s.workAddress
  {
    assert Apply(s, ChangeCustomerMode(New), AsWritten).next == Render(OnChangeCustomerModeAsWritten(s, New));
  }

  /** Typing into a mounted field of the customer step changes only that field. */
  lemma EditCustomerField(s: State, name: string, v: Value)
    requires s.step == 0 && s.customerMode == New && name in CustomerFieldNames
    ensures Apply(s, EditField(name, v), AsWritten).next == s.(form := s.form[name := v])
  {
  }

  /** Filling in the five required customer fields with the same text. */
  lemma FillCustomer(s: State, text: Value)
    requires s.step == 0 && s.customerMode == New && Filled(text) && EmailRule(text)
    ensures var r := Run(s, SwitchToNewCustomer(text)[1..6], AsWritten);
      r.(form := s.form) == s && Validates(r.form, CustomerRequired) && EmailRule(FieldValue(r.form, "email"))
  {
    var es := SwitchToNewCustomer(text)[1..6];
    assert es == [EditField("name", text), EditField("taxId", text), EditField("homeAddress", text),
                  EditField("email", text), EditField("phone", text)];
    var s1 := s.(form := s.form["name" := text]);
    EditCustomerField(s, "name", text);
    var s2 := s1.(form := s1.form["taxId" := text]);
    EditCustomerField(s1, "taxId", text);
    var s3 := s2.(form := s2.form["homeAddress" := text]);
    EditCustomerField(s2, "homeAddress", text);
    var s4 := s3.(form := s3.form["email" := text]);
    EditCustomerField(s3, "email", text);
    var s5 := s4.(form := s4.form["phone" := text]);
    EditCustomerField(s4, "phone", text);
    RunCons(s, es[0], es[1..], AsWritten);
    RunCons(s1, es[1], es[2..], AsWritten);
    RunCons(s2, es[2], es[3..], AsWritten);
    RunCons(s3, es[3], es[4..], AsWritten);
    RunCons(s4, es[4], [], AsWritten);
    assert Run(s, es, AsWritten) == s5;
    assert Validates(s5.form, CustomerRequired);
    assert FieldValue(s5.form, "email") == text;
  }

  lemma StepSubmitNewCustomer(s: State)
    requires Shaped(s) && s.step == 0 && s.customerMode == New && s.customer == None
    requires Validates(s.form, CustomerRequired) && EmailRule(FieldValue(s.form, "email"))
    ensures var r := Apply(s, SubmitCustomer, AsWritten).next;
      Shaped(r) && r.step == 1 && r.workAddressMode == New && r.customer == None && r.workAddress == s.workAddress &&
      SlotField(r.draft, "Customer", "id") == Null
  {
    assert RequiredFields(s) == CustomerRequired && "email" in MountedFields(s);
    assert Enabled(s, SubmitCustomer);
    var r := SubmitCustomerStep(s);
    assert Apply(s, SubmitCustomer, AsWritten).next == Render(r);
    SubmitCustomerShaped(s);
  }

  lemma SubmitCustomerShaped(s: State)
    requires Shaped(s)
    ensures Shaped(SubmitCustomerStep(s))
  {
    ObjectSlotStaysObject(s.draft, "Customer", Obj(Values(s.form, MountedFields(s))["id" := SelectedCustomerId(s)]));
  }

  lemma SwitchToNewCustomerReaches(s: State, w: WorkAddress, text: Value)
    requires Shaped(s) && s.step == 0 && s.customerMode == Existing && s.workAddress == Some(w)
    requires Filled(text) && EmailRule(text)
    ensures var r := Run(s, SwitchToNewCustomer(text), AsWritten);
      Shaped(r) && r.step == 1 && r.workAddressMode == New && r.customer == None && r.workAddress == Some(w) &&
      SlotField(r.draft, "Customer", "id") == Null
  {
    var es := SwitchToNewCustomer(text);
    assert es[0] == ChangeCustomerMode(New) && es[6] == SubmitCustomer;
    StepNewCustomerAsWritten(s);
    var s1 := Apply(s, es[0], AsWritten).next;
    FillCustomer(s1, text);
    var s6 := Run(s1, es[1..6], AsWritten);
    assert s6.(form := s1.form) == s1;
    StepSubmitNewCustomer(s6);
    var r := Apply(s6, es[6], AsWritten).next;
    RunThrough(s, es, 6, AsWritten);
  }

  /** Typing into a mounted field of the new-address step changes only that field. */
  lemma EditWorkAddressField(s: State, name: string, v: Value, rev: Revision)
    requires s.step == 1 && s.workAddressMode == New && name in WorkAddressFieldNames
    ensures Apply(s, EditField(name, v), rev).next == s.(form := s.form[name := v])
  {
  }

  lemma StepSubmitNewAddress(s: State)
    requires s.step == 1 && s.workAddressMode == New && Validates(s.form, WorkAddressRequired)
    ensures Apply(s, SubmitWorkAddress, AsWritten).next == Render(SubmitWorkAddressStep(s))
  {
    assert MountedFields(s) == WorkAddressFieldNames && RequiredFields(s) == WorkAddressRequired;
    assert "email" !in WorkAddressFieldNames;
    assert Enabled(s, SubmitWorkAddress);
  }

  lemma SubmitNewAddressReaches(s: State, w: WorkAddress, text: Value)
    requires s.step == 1 && s.workAddressMode == New && s.workAddress == Some(w)
    requires SlotField(s.draft, "Customer", "id") == Null
    requires "WorkAddress" in s.draft && IsPlainObject(s.draft["WorkAddress"])
    requires Filled(text)
    ensures var r := Run(s, SubmitNewAddress(text), AsWritten);
      r.step == 2 && r.customer == s.customer &&
      SlotField(r.draft, "Customer", "id") == Null &&
      SlotField(r.draft, "WorkAddress", "id") == Num(w.id) &&
      SlotField(r.draft, "WorkAddress", "customerId") == Null
  {
    var es := SubmitNewAddress(text);
    assert es == [EditField("addressName", text), EditField("address", text), SubmitWorkAddress];
    var s1 := s.(form := s.form["addressName" := text]);
    EditWorkAddressField(s, "addressName", text, AsWritten);
    var s2 := s1.(form := s1.form["address" := text]);
    EditWorkAddressField(s1, "address", text, AsWritten);
    StepSubmitNewAddress(s2);
    var s3 := Render(SubmitWorkAddressStep(s2));
    assert s2.draft == s.draft;
    RunCons(s, es[0], es[1..], AsWritten);
    RunCons(s1, es[1], es[2..], AsWritten);
    RunCons(s2, es[2], [], AsWritten);
    assert "Customer" in s.draft ==> s3.draft["Customer"] == s.draft["Customer"];
  }

  /**
   * With the handler as written, a new customer can be sent together with
   * an address id picked for a different customer: choose a customer that
   * has address `w`, go on, choose `w`, go back, switch to "new customer",
   * fill in the required fields and go on twice.
   */
  lemma StaleAddressAsWritten(a: Customer, w: WorkAddress, text: Value)
    requires w in a.workAddress
    requires Filled(text) && EmailRule(text)
    ensures var s := Run(Initial, PickThenReturn(a, w) + SwitchToNewCustomer(text) + SubmitNewAddress(text), AsWritten);
      s.step == 2 && s.customer == None &&
      SlotField(s.draft, "Customer", "id") == Null &&
      SlotField(s.draft, "WorkAddress", "id") == Num(w.id) &&
      SlotField(s.draft, "WorkAddress", "customerId") == Null
  {
    var p1 := PickThenReturn(a, w);
    var p2 := SwitchToNewCustomer(text);
    var p3 := SubmitNewAddress(text);
    PickThenReturnReaches(a, w);
    var s1 := Run(Initial, p1, AsWritten);
    SwitchToNewCustomerReaches(s1, w, text);
    var s2 := Run(s1, p2, AsWritten);
    SubmitNewAddressReaches(s2, w, text);
    RunSplit(Initial, p1, p2, AsWritten);
    RunSplit(Initial, p1 + p2, p3, AsWritten);
  }

  /** The walk above with a concrete input that passes every rule of the customer step. */
  lemma StaleAddressWithAddress(a: Customer, w: WorkAddress)
    requires w in a.workAddress
    ensures var text := Str("ana@mail.co");
      var s := Run(Initial, PickThenReturn(a, w) + SwitchToNewCustomer(text) + SubmitNewAddress(text), AsWritten);
      s.step == 2 && s.customer == None &&
      SlotField(s.draft, "Customer", "id") == Null &&
      SlotField(s.draft, "WorkAddress", "id") == Num(w.id)
  {
    EmailRuleAccepts();
    StaleAddressAsWritten(a, w, Str("ana@mail.co"));
  }

  /** A new customer whose email is not an address cannot leave the first step, whatever else is filled in. */
  lemma MalformedEmailBlocksNext(s: State)
    requires s.step == 0 && s.customerMode == New
    requires !EmailRule(FieldValue(s.form, "email"))
    ensures !Enabled(s, SubmitCustomer)
    ensures Apply(s, SubmitCustomer, AsWritten).next == s && Apply(s, SubmitCustomer, Corrected).next == s
  {
    assert "email" in MountedFields(s);
  }

  /** Going on from the first step mounts the address form over the work-address slot's values. */
  lemma AddressStepMountsSlot(s: State, rev: Revision)
    requires Enabled(s, SubmitCustomer)
    ensures var r := Apply(s, SubmitCustomer, rev).next;
      && r.step == 1
      && (forall k :: k in s.form ==> k in r.form && r.form[k] == s.form[k])
      && (forall k :: k in SlotValues(s.draft, "WorkAddress") && k !in s.form ==>
            k in r.form && r.form[k] == SlotValues(s.draft, "WorkAddress")[k])
  {
    var t := SubmitCustomerStep(s);
    assert Apply(s, SubmitCustomer, rev).next == Render(t);
    assert t.form == s.form && t.step == 1;
    assert "WorkAddress" in t.draft ==> "WorkAddress" in s.draft && t.draft["WorkAddress"] == s.draft["WorkAddress"];
    assert SlotValues(t.draft, "WorkAddress") == SlotValues(s.draft, "WorkAddress");
  }

  /**
   * A customer without addresses goes straight to a new address. Its
   * inputs start as the slot's blanks, so the ones left alone are sent as
   * empty strings.
   */
  lemma UntouchedAddressInputsSendBlank(c: Customer, text: Value)
    requires |c.workAddress| == 0 && Filled(text)
    ensures var s := Run(Initial, [SelectCustomer(c), SubmitCustomer, EditField("addressName", text),
                                   EditField("address", text), SubmitWorkAddress], AsWritten);
      && s.step == 2
      && SlotField(s.draft, "WorkAddress", "addressName") == text
      && forall k :: k in WorkAddressFieldNames[2..] ==> SlotField(s.draft, "WorkAddress", k) == Str("")
  {
    var a := [SelectCustomer(c), SubmitCustomer];
    var b := [EditField("addressName", text), EditField("address", text), SubmitWorkAddress];
    assert a + b == [SelectCustomer(c), SubmitCustomer, EditField("addressName", text),
                     EditField("address", text), SubmitWorkAddress];
    NoAddressCustomerGoesOn(c);
    RunSplit(Initial, a, b, AsWritten);
    BlankAddressSubmitted(Run(Initial, a, AsWritten), text);
  }

  /** Picking a customer without addresses and going on mounts blank address inputs. */
  lemma NoAddressCustomerGoesOn(c: Customer)
    requires |c.workAddress| == 0
    ensures var s := Run(Initial, [SelectCustomer(c), SubmitCustomer], AsWritten);
      && s.step == 1 && s.workAddressMode == New
      && "WorkAddress" in s.draft && IsPlainObject(s.draft["WorkAddress"])
      && forall k :: k in WorkAddressFieldNames ==> k in s.form && s.form[k] == Str("")
  {
    var es := [SelectCustomer(c), SubmitCustomer];
    CustomerPicked(c);
    var s1 := Apply(Initial, es[0], AsWritten).next;
    BlankAddressStepMounted(s1);
    RunCons(Initial, es[0], es[1..], AsWritten);
    RunCons(s1, es[1], [], AsWritten);
  }

  /** Picking a customer leaves the work-address slot blank and no address input in the store. */
  lemma CustomerPicked(c: Customer)
    ensures var r := Apply(Initial, SelectCustomer(c), AsWritten).next;
      && r.step == 0 && r.customerMode == Existing && r.customer == Some(c)
      && "WorkAddress" in r.draft && r.draft["WorkAddress"] == Obj(BlankWorkAddress)
      && forall k :: AddressLike(k) ==> k !in r.form
  {
    var r := Apply(Initial, SelectCustomer(c), AsWritten).next;
    var t := OnSelectCustomer(Initial, c);
    assert Enabled(Initial, SelectCustomer(c));
    assert r == Render(t);
    assert "WorkAddress" in Initial.draft && Initial.draft["WorkAddress"] == Obj(BlankWorkAddress);
    assert t.draft["WorkAddress"] == Obj(BlankWorkAddress);
    forall k | AddressLike(k)
      ensures k !in r.form
    {
      CustomerStoreLacks(c, k);
    }
  }

  /** Going on with a customer without addresses mounts the new-address inputs over the blank slot. */
  lemma BlankAddressStepMounted(s: State)
    requires s.step == 0 && s.customerMode == Existing && s.customer.Some? && |s.customer.value.workAddress| == 0
    requires "WorkAddress" in s.draft && s.draft["WorkAddress"] == Obj(BlankWorkAddress)
    requires forall k :: AddressLike(k) ==> k !in s.form
    ensures var r := Apply(s, SubmitCustomer, AsWritten).next;
      && r.step == 1 && r.workAddressMode == New
      && "WorkAddress" in r.draft && IsPlainObject(r.draft["WorkAddress"])
      && forall k :: k in WorkAddressFieldNames ==> k in r.form && r.form[k] == Str("")
  {
    assert RequiredFields(s) == [] && MountedFields(s) == [];
    assert Enabled(s, SubmitCustomer);
    AddressStepMountsSlot(s, AsWritten);
    var t := SubmitCustomerStep(s);
    assert Apply(s, SubmitCustomer, AsWritten).next == Render(t);
    assert SlotValues(s.draft, "WorkAddress") == BlankWorkAddress;
    AddressInputsAreAddressLike();
    BlankAddressInputs();
  }

  lemma BlankAddressInputs()
    ensures forall k :: k in WorkAddressFieldNames ==> k in BlankWorkAddress && BlankWorkAddress[k] == Str("")
  {
  }

  /** Typing the two required address inputs over blank ones and going on sends the rest blank. */
  lemma BlankAddressSubmitted(s: State, text: Value)
    requires s.step == 1 && s.workAddressMode == New && Filled(text)
    requires "WorkAddress" in s.draft && IsPlainObject(s.draft["WorkAddress"])
    requires forall k :: k in WorkAddressFieldNames ==> k in s.form && s.form[k] == Str("")
    ensures var r := Run(s, [EditField("addressName", text), EditField("address", text), SubmitWorkAddress], AsWritten);
      && r.step == 2
      && SlotField(r.draft, "WorkAddress", "addressName") == text
      && forall k :: k in WorkAddressFieldNames[2..] ==> SlotField(r.draft, "WorkAddress", k) == Str("")
  {
    var es := [EditField("addressName", text), EditField("address", text), SubmitWorkAddress];
    var s1 := s.(form := s.form["addressName" := text]);
    EditWorkAddressField(s, "addressName", text, AsWritten);
    var s2 := s1.(form := s1.form["address" := text]);
    EditWorkAddressField(s1, "address", text, AsWritten);
    TwoInputsTyped(s, text);
    StepSubmitNewAddress(s2);
    SubmittedAddressFields(s2, text);
    RunCons(s, es[0], es[1..], AsWritten);
    RunCons(s1, es[1], es[2..], AsWritten);
    RunCons(s2, es[2], [], AsWritten);
  }

  /** After typing the two required inputs, the others still hold their blanks. */
  lemma TwoInputsTyped(s: State, text: Value)
    requires s.step == 1 && s.workAddressMode == New && Filled(text)
    requires forall k :: k in WorkAddressFieldNames ==> k in s.form && s.form[k] == Str("")
    ensures var f := s.form["addressName" := text]["address" := text];
      && Validates(f, WorkAddressRequired)
      && FieldValue(f, "addressName") == text
      && forall k :: k in WorkAddressFieldNames[2..] ==> FieldValue(f, k) == Str("")
  {
    var f := s.form["addressName" := text]["address" := text];
    forall k | k in WorkAddressFieldNames[2..]
      ensures FieldValue(f, k) == Str("")
    {
      assert k in WorkAddressFieldNames && k != "addressName" && k != "address";
    }
  }

  /** What the new-address submit writes, read off a store holding the typed and blank inputs. */
  lemma SubmittedAddressFields(s: State, text: Value)
    requires s.step == 1 && s.workAddressMode == New
    requires "WorkAddress" in s.draft && IsPlainObject(s.draft["WorkAddress"])
    requires FieldValue(s.form, "addressName") == text
    requires forall k :: k in WorkAddressFieldNames[2..] ==> FieldValue(s.form, k) == Str("")
    ensures var r := Render(SubmitWorkAddressStep(s));
      && r.step == 2
      && SlotField(r.draft, "WorkAddress", "addressName") == text
      && forall k :: k in WorkAddressFieldNames[2..] ==> SlotField(r.draft, "WorkAddress", k) == Str("")
  {
    assert MountedFields(s) == WorkAddressFieldNames;
    var t := SubmitWorkAddressStep(s);
    forall k | k in WorkAddressFieldNames[2..]
      ensures SlotField(t.draft, "WorkAddress", k) == Str("")
    {
      assert k in WorkAddressFieldNames && k != "id" && k != "customerId";
    }
  }

  /** After picking a customer the store holds customer keys only, none named like an address input. */
  lemma CustomerStoreLacks(c: Customer, k: string)
    requires AddressLike(k)
    ensures k !in Render(OnSelectCustomer(Initial, c)).form
  {
    var t := OnSelectCustomer(Initial, c);
    CustomerSlotAfterPick(c);
    CustomerKeysAreNotAddressKeys(c);
    assert StepInitialValues(t) == Some(SlotValues(t.draft, "Customer"));
  }

  /** Picking a customer on the first step leaves the blank store and merges the customer into its slot. */
  lemma CustomerSlotAfterPick(c: Customer)
    ensures var t := OnSelectCustomer(Initial, c);
      && t.step == 0 && t.form == BlankCustomer
      && forall k :: k in SlotValues(t.draft, "Customer") ==> k in BlankCustomer || k in CustomerValue(c).fields
  {
    var t := OnSelectCustomer(Initial, c);
    assert Initial.draft["Customer"] == Obj(BlankCustomer);
    assert t.draft["Customer"] == Obj(Merge(BlankCustomer, CustomerValue(c)));
  }

  /** A cheap test that tells the address inputs' names from the customer's keys. */
  predicate AddressLike(k: string) {
    |k| >= 7 && (k[0] == 'a' || k[0] == 'c')
  }

  lemma AddressInputsAreAddressLike()
    ensures forall k :: k in WorkAddressFieldNames ==> AddressLike(k)
  {
  }

  lemma CustomerKeysAreNotAddressKeys(c: Customer)
    ensures forall k :: k in BlankCustomer ==> !AddressLike(k)
    ensures forall k :: k in CustomerValue(c).fields ==> !AddressLike(k)
  {
  }
}
