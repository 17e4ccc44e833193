/**
 * The three data hooks that fetch a whole collection and search and page it
 * on the client: contracts, business expenses and dumpsters. The REST call
 * is an input (`Fetched`); what the hook resolves or rejects with is the
 * output (`Outcome`).
 */
module Hooks {
  import opened Text
  import opened Json
  import opened Entities
  import opened Search

  // ---------------------------------------------------------------------------
  // Fetch results and error messages

  /** What the GET request produced: the collection, an HTTP-client error, or any other exception. */
  datatype Fetched<T> =
    | Delivered(items: seq<T>)
    | HttpError(responseData: Value, message: string)
    | OtherError

  /**
   * How the hook's promise settles. A failure that is not an HTTP-client
   * error is swallowed by the `catch` block, so the promise resolves to
   * `undefined`.
   */
  datatype Outcome<T> = Resolved(page: Page<T>) | Rejected(message: string) | ResolvedUndefined

  /** `String(v)`, the conversion `new Error(v)` applies to its argument. */
  function JsString(v: Value): (s: string)
    ensures Truthy(v) && !v.Arr? ==> s != ""
    decreases v, 1
  {
    match v
    case Undefined => "undefined"
    case Null => "null"
    case Bool(b) => if b then "true" else "false"
    case Num(n) => IntToDecimal(n)
    case Str(t) => t
    case Arr(items) => Join(v, items)
    case Obj(_) => "[object Object]"
  }

  /** `Array.prototype.join(",")`: `null` and `undefined` elements print as nothing. */
  function Join(parent: Value, items: seq<Value>): string
    requires forall i :: 0 <= i < |items| ==> items[i] < parent
    decreases parent, 0, |items|
  {
    if |items| == 0 then ""
    else
      var head := if items[0].Undefined? || items[0].Null? then "" else JsString(items[0]);
      if |items| == 1 then head else head + "," + Join(parent, items[1..])
  }

  /**
   * The message of `new Error(error.response?.data || error.message || fallback)`:
   * the first truthy one of the three, converted to a string.
   */
  function ErrorText(responseData: Value, message: string, fallback: string): (text: string)
    ensures Truthy(responseData) ==> text == JsString(responseData)
    ensures !Truthy(responseData) && message != "" ==> text == message
    ensures !Truthy(responseData) && message == "" ==> text == fallback
  {
    if Truthy(responseData) then JsString(responseData)
    else if message != "" then message
    else fallback
  }

  /**
   * The shown message is never empty, unless the server answered with an
   * array (whose string form may be empty, `[]` prints as nothing).
   */
  lemma ErrorTextNonEmpty(responseData: Value, message: string, fallback: string)
    requires fallback != ""
    requires !responseData.Arr?
    ensures ErrorText(responseData, message, fallback) != ""
  {
  }

  /** An empty array body is truthy, so it wins over the message and prints as nothing. */
  lemma EmptyArrayBodyHidesMessage(message: string, fallback: string)
    ensures ErrorText(Arr([]), message, fallback) == ""
  {
  }

  // ---------------------------------------------------------------------------
  // The shared query

  /**
   * Filter the fetched collection by `term` and `field`, then cut out page
   * `page` of `limit` rows; failures map as the hooks' `catch` blocks do.
   */
  function Query<T>(fetched: Fetched<T>, fieldsOf: T -> seq<Field>, page: int, limit: int,
                    term: string, field: string, fallback: string): (r: Outcome<T>)
    requires limit > 0
    ensures fetched.Delivered? <==> r.Resolved?
    ensures fetched.Delivered? ==> r == Resolved(Paginate(Filter(fetched.items, fieldsOf, field, term), page, limit))
    ensures fetched.HttpError? ==> r == Rejected(ErrorText(fetched.responseData, fetched.message, fallback))
    ensures fetched.OtherError? ==> r == ResolvedUndefined
    ensures r.Resolved? ==> |r.page.data| <= limit && r.page.page == page && r.page.limit == limit
    ensures r.Resolved? ==> r.page.total <= |fetched.items|
    ensures r.Resolved? && term == "" ==> r.page.total == |fetched.items|
    ensures r.Resolved? ==> forall i :: 0 <= i < |r.page.data| ==> r.page.data[i] in fetched.items
    ensures r.Resolved? && term != "" ==>
      forall i :: 0 <= i < |r.page.data| ==> Matches(fieldsOf(r.page.data[i]), field, term)
    ensures r.Resolved? ==> r.page.totalPages * limit >= r.page.total
    ensures r.Resolved? && r.page.total > 0 ==> (r.page.totalPages - 1) * limit < r.page.total
  {
    match fetched
    case Delivered(items) =>
      PageOfMatches(Filter(items, fieldsOf, field, term), items, fieldsOf, page, limit, term, field);
      Resolved(Paginate(Filter(items, fieldsOf, field, term), page, limit))
    case HttpError(data, message) => Rejected(ErrorText(data, message, fallback))
    case OtherError => ResolvedUndefined
  }

  /** A page cut from rows that were all fetched, and all match, holds only such rows. */
  lemma PageOfMatches<T>(rows: seq<T>, items: seq<T>, fieldsOf: T -> seq<Field>, page: int, limit: int,
                         term: string, field: string)
    requires limit > 0
    requires forall x :: x in rows ==> x in items
    requires term != "" ==> forall i :: 0 <= i < |rows| ==> Matches(fieldsOf(rows[i]), field, term)
    ensures var p := Paginate(rows, page, limit);
      && (forall i :: 0 <= i < |p.data| ==> p.data[i] in items)
      && (term != "" ==> forall i :: 0 <= i < |p.data| ==> Matches(fieldsOf(p.data[i]), field, term))
  {
    var p := Paginate(rows, page, limit);
    var from := RelativeIndex(Offset(page, limit), |rows|);
    assert from + |p.data| <= |rows| && p.data == rows[from..from + |p.data|];
    forall i | 0 <= i < |p.data|
      ensures p.data[i] in items && (term != "" ==> Matches(fieldsOf(p.data[i]), field, term))
    {
      assert p.data[i] == rows[from + i];
    }
  }

  // ---------------------------------------------------------------------------
  // Contracts

  /** The selector keys `getContracts` knows, in the order of its `||` chain. */
  const ContractKeys: seq<string> := ["Customer name", "Work Address Name", "Dumpster Name",
    "Fix Description", "Contract Status", "Contract Payment Status", "Description"]

  /** The searchable text of a contract under each key. */
  function ContractFields(c: Contract): (fs: seq<Field>)
    ensures |fs| == |ContractKeys| && DistinctKeys(fs)
    ensures forall i :: 0 <= i < |fs| ==> fs[i].key == ContractKeys[i]
  {
    [Field("Customer name", c.customer.name),
     Field("Work Address Name", c.workAddress.addressName),
     Field("Dumpster Name", c.dumpster.name),
     Field("Fix Description", c.fixContract.fix.description),
     Field("Contract Status", c.contractStatus),
     Field("Contract Payment Status", c.contractPaymentStatus),
     Field("Description", c.description)]
  }

  function GetContracts(fetched: Fetched<Contract>, page: int, limit: int, term: string, field: string): (r: Outcome<Contract>)
    requires limit > 0
    ensures fetched.Delivered? ==> r == Resolved(Paginate(Filter(fetched.items, ContractFields, field, term), page, limit))
    ensures fetched.HttpError? ==> r == Rejected(ErrorText(fetched.responseData, fetched.message, "Error getting contracts"))
    ensures fetched.OtherError? ==> r == ResolvedUndefined
    ensures r.Resolved? && term != "" && field != AllFields && field !in ContractKeys ==>
      r.page.total == 0 && r.page.data == [] && r.page.totalPages == 0
  {
    var r := Query(fetched, ContractFields, page, limit, term, field, "Error getting contracts");
    if fetched.Delivered? && term != "" && field != AllFields && field !in ContractKeys then
      forall c ensures NoneSelected(ContractFields(c), field) {
        UnknownFieldSelectsNothing(ContractFields(c), field);
      }
      UnselectedFieldFindsNothing(fetched.items, ContractFields, field, term);
      r
    else r
  }

  /** Searching by the customer-name key looks at the customer's name only. */
  lemma ContractSearchByCustomerName(c: Contract, term: string)
    ensures Matches(ContractFields(c), "Customer name", term) <==>
      Contains(Lower(c.customer.name), Lower(term))
  {
    NamedFieldSearch(ContractFields(c), 0, term);
  }

  /** Searching by a named key looks at that key's text only. */
  lemma ContractSearchByKey(c: Contract, j: int, term: string)
    requires 0 <= j < |ContractKeys|
    ensures Matches(ContractFields(c), ContractKeys[j], term) <==>
      Contains(Lower(ContractFields(c)[j].text), Lower(term))
  {
    NamedFieldSearch(ContractFields(c), j, term);
  }

  /** Every key the contracts page offers is "all" or a key the hook knows. */
  lemma ContractPageKeysKnown()
    ensures forall k :: k in ContractPageKeys ==> k == AllFields || k in ContractKeys
  {
  }

  /** The selector values the contracts page offers. */
  const ContractPageKeys: seq<string> := ["all", "Work Address Name", "Dumpster Name",
    "Fix Description", "Contract Status", "Contract Payment Status", "Description"]

  // ---------------------------------------------------------------------------
  // Business expenses

  const ExpenseKeys: seq<string> := ["date", "beneficiary", "invoice", "paymentMethod",
    "specificArea", "description"]

  function ExpenseFields(e: BusinessExpense): (fs: seq<Field>)
    ensures |fs| == |ExpenseKeys| && DistinctKeys(fs)
    ensures forall i :: 0 <= i < |fs| ==> fs[i].key == ExpenseKeys[i]
  {
    [Field("date", e.date),
     Field("beneficiary", e.beneficiary),
     Field("invoice", e.invoice),
     Field("paymentMethod", e.paymentMethod),
     Field("specificArea", e.specificArea),
     Field("description", e.description)]
  }

  function GetBusinessExpenses(fetched: Fetched<BusinessExpense>, page: int, limit: int, term: string, field: string): (r: Outcome<BusinessExpense>)
    requires limit > 0
    ensures fetched.Delivered? ==> r == Resolved(Paginate(Filter(fetched.items, ExpenseFields, field, term), page, limit))
    ensures fetched.HttpError? ==> r == Rejected(ErrorText(fetched.responseData, fetched.message, "Error getting Business Expenses."))
    ensures fetched.OtherError? ==> r == ResolvedUndefined
    ensures r.Resolved? && term != "" && field != AllFields && field !in ExpenseKeys ==>
      r.page.total == 0 && r.page.data == [] && r.page.totalPages == 0
  {
    var r := Query(fetched, ExpenseFields, page, limit, term, field, "Error getting Business Expenses.");
    if fetched.Delivered? && term != "" && field != AllFields && field !in ExpenseKeys then
      forall e ensures NoneSelected(ExpenseFields(e), field) {
        UnknownFieldSelectsNothing(ExpenseFields(e), field);
      }
      UnselectedFieldFindsNothing(fetched.items, ExpenseFields, field, term);
      r
    else r
  }

  /** Searching by a named key looks at that key's text only. */
  lemma ExpenseSearchByKey(e: BusinessExpense, j: int, term: string)
    requires 0 <= j < |ExpenseKeys|
    ensures Matches(ExpenseFields(e), ExpenseKeys[j], term) <==>
      Contains(Lower(ExpenseFields(e)[j].text), Lower(term))
  {
    NamedFieldSearch(ExpenseFields(e), j, term);
  }

  /** The selector values the business-expenses page offers. */
  const ExpensePageKeys: seq<string> := ["all", "date", "beneficiary", "invoice", "paymentMethod",
    "specificArea", "description"]

  lemma ExpensePageKeysKnown()
    ensures forall k :: k in ExpensePageKeys ==> k == AllFields || k in ExpenseKeys
  {
  }

  // ---------------------------------------------------------------------------
  // Dumpsters

  const DumpsterKeys: seq<string> := ["name", "size", "weight", "description", "DumpsterStatus"]

  /** Size and weight are searched in their decimal form. */
  function DumpsterFields(d: Dumpster): (fs: seq<Field>)
    ensures |fs| == |DumpsterKeys| && DistinctKeys(fs)
    ensures forall i :: 0 <= i < |fs| ==> fs[i].key == DumpsterKeys[i]
  {
    [Field("name", d.name),
     Field("size", IntToDecimal(d.size)),
     Field("weight", IntToDecimal(d.weight)),
     Field("description", d.description),
     Field("DumpsterStatus", d.dumpsterStatus.name)]
  }

  function GetDumpsters(fetched: Fetched<Dumpster>, page: int, limit: int, term: string, field: string): (r: Outcome<Dumpster>)
    requires limit > 0
    ensures fetched.Delivered? ==> r == Resolved(Paginate(Filter(fetched.items, DumpsterFields, field, term), page, limit))
    ensures fetched.HttpError? ==> r == Rejected(ErrorText(fetched.responseData, fetched.message, "Error getting dumpster"))
    ensures fetched.OtherError? ==> r == ResolvedUndefined
    ensures r.Resolved? && term != "" && field != AllFields && field !in DumpsterKeys ==>
      r.page.total == 0 && r.page.data == [] && r.page.totalPages == 0
  {
    var r := Query(fetched, DumpsterFields, page, limit, term, field, "Error getting dumpster");
    if fetched.Delivered? && term != "" && field != AllFields && field !in DumpsterKeys then
      forall d ensures NoneSelected(DumpsterFields(d), field) {
        UnknownFieldSelectsNothing(DumpsterFields(d), field);
      }
      UnselectedFieldFindsNothing(fetched.items, DumpsterFields, field, term);
      r
    else r
  }

  /** A size search compares against the size's decimal digits (and sign). */
  lemma DumpsterSearchBySize(d: Dumpster, term: string)
    ensures Matches(DumpsterFields(d), "size", term) <==> Contains(IntToDecimal(d.size), Lower(term))
  {
    NamedFieldSearch(DumpsterFields(d), 1, term);
    IntDecimalIsLower(d.size);
  }

  /** The status key spelled as the hook spells it searches the status name. */
  lemma DumpsterSearchByStatus(d: Dumpster, term: string)
    ensures Matches(DumpsterFields(d), "DumpsterStatus", term) <==>
      Contains(Lower(d.dumpsterStatus.name), Lower(term))
  {
    NamedFieldSearch(DumpsterFields(d), 4, term);
  }

  /** The selector values the dumpsters page offers, status key spelled with a lower-case d. */
  const DumpsterPageKeysAsWritten: seq<string> := ["all", "size", "weight", "name", "dumpsterStatus", "description"]

  /** The same list with the status key spelled as the hook spells it. */
  const DumpsterPageKeys: seq<string> := ["all", "size", "weight", "name", "DumpsterStatus", "description"]

  /**
   * As written, choosing "Dumpster Status" on the page sends a key the hook
   * does not know, so a status search finds nothing, even for a dumpster
   * whose status name is exactly the term.
   */
  lemma DumpsterStatusSearchFindsNothing(items: seq<Dumpster>, page: int, limit: int, term: string)
    requires limit > 0 && term != ""
    ensures "dumpsterStatus" in DumpsterPageKeysAsWritten && "dumpsterStatus" !in DumpsterKeys
    ensures GetDumpsters(Delivered(items), page, limit, term, "dumpsterStatus").page.total == 0
  {
    assert DumpsterKeys[4] != "dumpsterStatus";
  }

  /** A dumpster the status search should find: its status name is the term. */
  lemma DumpsterStatusCounterexample(d: Dumpster)
    requires d.dumpsterStatus.name == "available"
    ensures Matches(DumpsterFields(d), "DumpsterStatus", "available")
    ensures GetDumpsters(Delivered([d]), 1, 5, "available", "dumpsterStatus").page.data == []
  {
    EmptyOccurs("available");
    assert OccursAt(Lower("available"), Lower("available"), 0);
    DumpsterSearchByStatus(d, "available");
    DumpsterStatusSearchFindsNothing([d], 1, 5, "available");
  }

  /** With the corrected spelling every offered key names exactly one field of the hook. */
  lemma DumpsterPageKeysKnown()
    ensures forall k :: k in DumpsterPageKeys ==> k == AllFields || k in DumpsterKeys
    ensures "DumpsterStatus" in DumpsterPageKeys
  {
  }
}
