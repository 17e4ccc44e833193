# Dumpster rental dashboard: a Dafny model of its client-side logic

The dashboard is a React/TypeScript front end. It manages customers, work addresses, dumpsters, price
fixes, contracts, business expenses and users. This project models the logic that runs in the browser
between the REST responses and the screen:

- the invoice arithmetic of the contract PDF: total due, line items, invoice number, included days;
- the search and pagination that the `useContract`, `useBusinessExpenses` and `useDumpster` hooks run
  on the full list they download;
- the four-step contract-creation wizard: its draft object, the merge in `updateFormData`, the
  selection handlers and the mode switches;
- the expenses report: date filtering, grouping by area, payment method and month, the summary and
  the display orderings;
- the controller shared by the CRUD list pages: paging, searching, the one-shot error flag, row
  updates after an edit, and stepping back a page after a delete;
- the forms the pages fill in and read back: the customers page's work-address form, the business
  expense date, the users page's password rules, and the contracts page's payments and edit dialogs;
- the dayjs formats the pages use (`YYYY-MM-DD HH:mm:ss`, `YYYY-MM-DD`, `YYYY-MM`), and the proof
  that their string order is the calendar order.

JavaScript values are modelled by `Json.Value`. Object spread (`{...a, ...b}`), truthiness, antd's
`required` and `email` rules and rc-field-form's rule that only mounted fields are submitted are all
written out. So is the wizard's form store: each step is a component declared inside the page, so
every render of the page mounts the step's form again, and the form fills the inputs the store lacks
from its `initialValues`; `resetFields` goes back to the last form's `initialValues`.
HTTP responses, dayjs parsing and the current time are parameters of the functions that use them.

Modules: `Wrappers` (Option/Result), `Text` (strings, decimals, ASCII lower-case, code-unit order),
`Json`, `Entities` (the records of `src/app/types`), `Dates`, `Sorting` (an insertion sort
standing in for `Array.prototype.sort`), `Search`, `Hooks`, `Invoice`, `Wizard`, `ExpensesReport`,
`ListPage`, `PageForms` and `ContractEdit`.

Where the description of the system and its code differ, the model follows the code:

- The users page calls `fetchUsers()` after the `if` in `userManagement/page.tsx:162`, so a
  successful edit there both merges the row locally and refetches.
- The contracts payments form submits the over-time and over-weight quantities only while the
  "extra days or tons" box is ticked. The box unmounts those inputs, and antd submits mounted
  fields only.
- The dumpsters page offers a status key that the hook does not know (see Findings).
- The wizard can send a work address of one customer with a new customer (see Findings).

## Model

| member | source | states |
|---|---|---|
| Invoice.TotalDue | src/app/ui/components/PDFGenerate.tsx:191-199 | With no positive over-time or over-weight quantity, the total is exactly the base fee (custom amount plus landfill cost). |
| Invoice.DaysTermAddedIffPositive | src/app/ui/components/PDFGenerate.tsx:193-195 | The days-over-time charge is in the total exactly when the paid-days quantity is positive; a zero or negative quantity adds nothing. |
| Invoice.TonsTermAddedIffPositive | src/app/ui/components/PDFGenerate.tsx:196-198 | The tons-over-weight charge is in the total exactly when the paid-tons quantity is positive. |
| Invoice.TotalIgnoresPaymentFlags | src/app/ui/components/PDFGenerate.tsx:191-199 | The "made payment" flags and the payment amounts of a contract do not change its total due. |
| Invoice.LineItems | src/app/ui/components/PDFGenerate.tsx:355-377 | The table always starts with the base-fee row. It has a days row exactly when paid days are positive and a tons row exactly when paid tons are positive, never two rows of one kind, and every row shows quantity 1 and price equal to its amount. |
| Invoice.LineItemsAddUp | src/app/ui/components/PDFGenerate.tsx:355-389 | The rows of the items table add up to the subtotal and total printed under them. |
| Invoice.InvoiceNumberRoundTrip | src/app/ui/components/PDFGenerate.tsx:221 | The invoice number is all digits, at least six long, reads back as the contract id, and loses only its leading zeros. |
| Invoice.IncludedDays | src/app/ui/components/PDFGenerate.tsx:247 | The included-days figure is a count of days that, added to one of the two dates, gives the other. |
| Invoice.IncludedDaysSymmetric | src/app/ui/components/PDFGenerate.tsx:247 | Swapping start and end gives the same figure, which is zero only when the days coincide. |
| Invoice.Figures | src/app/ui/components/PDFGenerate.tsx:221-389 | The subtotal, total due and payment due printed on the invoice agree with each other and with the sum of the rows; the pricing clause shows the base-fee row's amount; the number reads back as the id. |
| Invoice.PaymentTag | src/app/dashboard/contracts/page.tsx:372-385 | A payment tag is green exactly when that payment was made and dark red exactly when it was not. |
| Invoice.ExpandedRowAgreesWithInvoice | src/app/dashboard/contracts/page.tsx:364-386 | The over-time and over-weight amounts in the expanded row equal the invoice's rows when the quantities are positive; a negative quantity shows a charge the invoice leaves out. |
| Search.AnyFieldMatches | src/app/hooks/useContract.ts:73-84 | A record matches when some field selected by the key (every field for "all") contains the lower-cased term. |
| Search.NamedFieldSearch | src/app/hooks/useContract.ts:76-82 | With distinct keys, searching by one key matches exactly when that key's text contains the term, case-insensitively. |
| Search.UnknownFieldSelectsNothing | src/app/hooks/useDumpster.ts:24-33 | A key that is neither "all" nor a record key selects no field. |
| Search.KeepMatching | src/app/hooks/useContract.ts:73-84 | The result keeps the original order and holds every matching record as many times as the input does, and nothing else. |
| Search.Filter | src/app/hooks/useContract.ts:73-84 | An empty term keeps the whole list; otherwise the result is the matching records in their original order, each as many times as in the input. |
| Search.FilterKeepsExactlyMatches | src/app/hooks/useContract.ts:73-84 | A record of the list survives a non-empty search exactly when it matches. |
| Search.UnselectedFieldFindsNothing | src/app/hooks/useDumpster.ts:24-33 | When the key selects no field of any record, a non-empty search returns nothing. |
| Search.RelativeIndex | src/app/hooks/useContract.ts:86-88 | An index is clamped to the list as `Array.prototype.slice` does, with negative indexes counting from the end. |
| Search.Slice | src/app/hooks/useContract.ts:86-88 | A slice from a non-negative start is the stretch between the clamped indexes and is never longer than `end - start`. |
| Search.CeilDiv | src/app/hooks/useContract.ts:95 | The page count is the least number of pages of the given size that cover the total. |
| Search.Offset | src/app/hooks/useContract.ts:86 | Page 1 and later start at a non-negative offset; for page 0 or below, `offset + limit <= 0`. |
| Search.OffsetStep | src/app/hooks/useContract.ts:86-87 | Consecutive pages start `limit` rows apart. |
| Search.Paginate | src/app/hooks/useContract.ts:86-96 | A page holds at most `limit` rows: for page 1 and on, exactly the rows between its offset and the next page's. It reports the total, the page asked for, the limit and the least page count covering the total. |
| Search.PagesUpToPrefix | src/app/hooks/useContract.ts:86-88 | Pages 1 to n, joined, are the prefix of the list up to the end of page n. |
| Search.PagesReassemble | src/app/hooks/useContract.ts:86-96 | Joining pages 1 to the reported page count gives back the whole list: no row is lost or repeated. |
| Hooks.ErrorText | src/app/hooks/useContract.ts:97-100 | A rejection carries the response body if it is truthy, else the error message if non-empty, else the fixed fallback. |
| Hooks.ErrorTextNonEmpty | src/app/hooks/useContract.ts:97-100 | With a non-empty fallback and a body that is not an array, the error text is never empty. |
| Hooks.EmptyArrayBodyHidesMessage | src/app/hooks/useContract.ts:97-100 | An empty array body is truthy and stringifies to "", so it replaces the error message with an empty text. |
| Hooks.Query | src/app/hooks/useContract.ts:68-101 | A delivered list resolves to the requested page of the filtered list, so it holds only fetched rows that match and has a covering page count. An HTTP error rejects with the error text. Any other failure resolves to nothing. |
| Hooks.PageOfMatches | src/app/hooks/useContract.ts:85-99 | A page cut from fetched, matching rows holds only fetched, matching rows. |
| Hooks.ContractFields | src/app/hooks/useContract.ts:76-82 | Contracts are searched under seven distinct keys, in the hook's order. |
| Hooks.GetContracts | src/app/hooks/useContract.ts:68-101 | A delivered list resolves to the requested page of the contracts matching under the seven keys. An HTTP error rejects with its text, or "Error getting contracts" when there is none; any other failure resolves to nothing. A search under an unknown key resolves to an empty page. |
| Hooks.ContractSearchByCustomerName | src/app/hooks/useContract.ts:76 | The customer-name key searches the customer's name only. |
| Hooks.ContractSearchByKey | src/app/hooks/useContract.ts:76-82 | Each contract key searches only the text the hook puts under it. |
| Hooks.ContractPageKeysKnown | src/app/dashboard/contracts/page.tsx:98-106 | Every key the contracts page offers is "all" or a key the hook knows. |
| Hooks.ExpenseFields | src/app/hooks/useBusinessExpenses.ts:23-33 | Expenses are searched under distinct keys, in the hook's order. |
| Hooks.GetBusinessExpenses | src/app/hooks/useBusinessExpenses.ts:18-50 | A delivered list resolves to the requested page of the matching expenses. An HTTP error rejects with its text, or "Error getting Business Expenses." when there is none; any other failure resolves to nothing. A search under an unknown key finds nothing. |
| Hooks.ExpenseSearchByKey | src/app/hooks/useBusinessExpenses.ts:23-33 | Each expense key searches only the text the hook puts under it. |
| Hooks.ExpensePageKeysKnown | src/app/dashboard/businessExpenses/page.tsx:80-87 | Every key the business-expenses page offers is "all" or a key the hook knows. |
| Hooks.DumpsterFields | src/app/hooks/useDumpster.ts:24-33 | Dumpsters are searched under five distinct keys, the status under "DumpsterStatus". |
| Hooks.GetDumpsters | src/app/hooks/useDumpster.ts:19-50 | A delivered list resolves to the requested page of the matching dumpsters. An HTTP error rejects with its text, or "Error getting dumpster" when there is none; any other failure resolves to nothing. A search under an unknown key finds nothing. |
| Hooks.DumpsterSearchBySize | src/app/hooks/useDumpster.ts:27-28 | Searching by size matches the decimal digits of the size. |
| Hooks.DumpsterSearchByStatus | src/app/hooks/useDumpster.ts:31 | Searching under "DumpsterStatus" matches the status name, case-insensitively. |
| Hooks.DumpsterStatusSearchFindsNothing | src/app/dashboard/dumpsters/page.tsx:85 | The page's "dumpsterStatus" key is not a hook key, so every non-empty search under it returns an empty page. |
| Hooks.DumpsterStatusCounterexample | src/app/dashboard/dumpsters/page.tsx:85 | An "available" dumpster matches "available" under the hook's key but is not found under the page's key. |
| Hooks.DumpsterPageKeysKnown | src/app/hooks/useDumpster.ts:31 | With the status key spelled as the hook spells it, every key the page offers is known. |
| Wizard.Cleared | src/app/dashboard/contracts/create/page.tsx:189-214 | The clear functions blank exactly the named inputs and leave every other input alone. |
| Wizard.UpdateFormData | src/app/dashboard/contracts/create/page.tsx:146-163 | Only the named slot of the draft changes; an object slot absorbs the new fields by spread, and any other slot is replaced. |
| Wizard.ObjectSlotStaysObject | src/app/dashboard/contracts/create/page.tsx:148-154 | An object slot stays an object and gains exactly the keys of the spread value. |
| Wizard.MergeCumulative | src/app/dashboard/contracts/create/page.tsx:148-154 | A field written by one update survives a later update that does not mention it. |
| Wizard.MergeIdempotent | src/app/dashboard/contracts/create/page.tsx:148-154 | Repeating an update of an object slot changes nothing more. |
| Wizard.OnSelectCustomer | src/app/dashboard/contracts/create/page.tsx:165-170 | Choosing a customer records it, drops the chosen work address, writes the customer's id into the draft, and leaves the other draft slots alone. |
| Wizard.OnSelectWorkAddress | src/app/dashboard/contracts/create/page.tsx:172-176 | Choosing a work address records it without touching the customer or the other draft slots. |
| Wizard.OnSelectDumpster | src/app/dashboard/contracts/create/page.tsx:178-182 | Choosing a dumpster records it and puts its id under the draft's `dumsterId` key. |
| Wizard.OnSelectFix | src/app/dashboard/contracts/create/page.tsx:184-188 | Choosing a price fix records it and puts its id under `fixId`. |
| Wizard.OnChangeCustomerModeAsWritten | src/app/dashboard/contracts/create/page.tsx:216-225 | Switching the customer mode blanks the address inputs and forgets the customer on "new", but keeps the previously chosen work address. |
| Wizard.OnChangeCustomerMode | src/app/dashboard/contracts/create/page.tsx:216-225 | The corrected switch to "new" also forgets the chosen work address; "existing" keeps both. |
| Wizard.OnChangeWorkAddressMode | src/app/dashboard/contracts/create/page.tsx:227-235 | Switching to a new address forgets the chosen one and blanks the address inputs; switching back changes no input. |
| Wizard.SubmitCustomerStep | src/app/dashboard/contracts/create/page.tsx:521-530 | The customer step advances one step, writes the customer into the draft, and offers the existing-address mode exactly when the chosen customer has addresses. |
| Wizard.SubmitWorkAddressStep | src/app/dashboard/contracts/create/page.tsx:748-760 | The address step advances one step and writes into the draft every mounted address input as the form holds it, the chosen address's id (or null) and the customer slot's id when truthy (or null). |
| Wizard.SubmitDetailsStep | src/app/dashboard/contracts/create/page.tsx:950-956 | The details step advances one step and writes the description and base weight into the draft. |
| Wizard.PickDate | src/app/dashboard/contracts/create/page.tsx:987-1002 | Picking a date stores its text in the draft; a cleared picker leaves null in the input. |
| Wizard.Apply | src/app/dashboard/contracts/create/page.tsx:111-144 | A disabled control does nothing; typing changes only that input; "Previous" goes back one step and mounts that step's form again; a failed create keeps the state and shows the error; a successful one resets the inputs to the work-address slot, the last form's initial values; no action moves more than one step. |
| Wizard.Enabled | src/app/dashboard/contracts/create/page.tsx:637-1031 | Defines which controls act: each step's own controls only on that step, the Next buttons only when their selection is made and the form passes its rules, the existing-address mode only for a customer with addresses. |
| Wizard.Render | src/app/dashboard/contracts/create/page.tsx:1201-1206 | After a render the store keeps every value it held and gains the step form's initial values only for the inputs it lacked; the confirmation step, which has no form, changes nothing. |
| Wizard.InitialFormIsMounted | src/app/dashboard/contracts/create/page.tsx:518-531 | The starting store is the customer slot's blanks mounted over an empty store. |
| Wizard.AddressStepMountsSlot | src/app/dashboard/contracts/create/page.tsx:748-760 | Going on from the customer step keeps every input already in the store and fills the missing ones from the work-address slot. |
| Wizard.UntouchedAddressInputsSendBlank | src/app/dashboard/contracts/create/page.tsx:748-760 | A customer without addresses goes straight to a new address; typing only its name and address and going on sends the name as typed and every other address input as the empty string. |
| Wizard.InitialInv | src/app/dashboard/contracts/create/page.tsx:146-163 | The wizard starts in a consistent state. |
| Wizard.ApplyKeepsInv | src/app/dashboard/contracts/create/page.tsx:111-235 | Every action of the corrected wizard keeps the draft's ids in step with the chosen customer and address. |
| Wizard.RunKeepsInv | src/app/dashboard/contracts/create/page.tsx:111-235 | Any sequence of actions from a consistent state keeps it consistent. |
| Wizard.ReachableStatesAreConsistent | src/app/dashboard/contracts/create/page.tsx:751-757 | In every reachable state of the corrected wizard, a work-address id in the draft belongs to one of the addresses of the customer whose id is in the draft. |
| Wizard.StaleAddressAsWritten | src/app/dashboard/contracts/create/page.tsx:216-225 | As written: choose a customer and one of their addresses, go back, switch to a new customer, fill in its fields with a text that passes the required and email rules, and go on. The draft then carries the old address's id with no customer. |
| ExpensesReport.DayKey | src/app/dashboard/reports/expenses/page.tsx:56-62 | The day key of a stored date is its first ten characters. |
| ExpensesReport.MonthKey | src/app/dashboard/reports/expenses/page.tsx:81-85 | The month key is the first seven characters. |
| ExpensesReport.MonthOfDay | src/app/dashboard/reports/expenses/page.tsx:56-85 | The month key is the first seven characters of the day key. |
| ExpensesReport.FilterByDate | src/app/dashboard/reports/expenses/page.tsx:56-62 | The filtered list keeps order and holds exactly the expenses whose day lies in the range. |
| ExpensesReport.FilterByDateCounts | src/app/dashboard/reports/expenses/page.tsx:56-62 | An expense in range is kept as many times as it was loaded; one out of range is dropped. |
| ExpensesReport.RangeIsInclusive | src/app/dashboard/reports/expenses/page.tsx:58-60 | Expenses on the first or last day of an ordered range are kept. |
| ExpensesReport.ReversedRangeIsEmpty | src/app/dashboard/reports/expenses/page.tsx:58-60 | An end day before the start day filters everything out. |
| ExpensesReport.Refilter | src/app/dashboard/reports/expenses/page.tsx:50-54 | When there are expenses and both days are set, the shown list becomes the date filter of the loaded list; otherwise it stays as it was. |
| ExpensesReport.Step | src/app/dashboard/reports/expenses/page.tsx:34-66 | Picking a day changes only that end of the range; a failed load changes nothing; applying the filter shows the date filter of the loaded list. |
| ExpensesReport.FilteredIsCurrent | src/app/dashboard/reports/expenses/page.tsx:50-54 | After any input but a failed load, with both days set and expenses loaded, the shown list is the date filter of the loaded list. |
| ExpensesReport.ClearedDateKeepsList | src/app/dashboard/reports/expenses/page.tsx:50-54 | Clearing either picker leaves the shown list unchanged. |
| ExpensesReport.ApplyWithoutEndDate | src/app/dashboard/reports/expenses/page.tsx:64-66 | Applying the filter with no end day shows nothing. |
| ExpensesReport.Add | src/app/dashboard/reports/expenses/page.tsx:71-79 | Adding an amount under a key raises that key's sum by the amount, leaves the others, and keeps keys distinct. |
| ExpensesReport.GroupSums | src/app/dashboard/reports/expenses/page.tsx:71-85 | Each group appears once, the groups are exactly the keys that occur, each sum is the total of its expenses, and the sums add up to the grand total. |
| ExpensesReport.GroupRowsAreSums | src/app/dashboard/reports/expenses/page.tsx:71-85 | Every row of a grouping shows the total of the expenses with that key. |
| ExpensesReport.MonthOrderConsistent | src/app/dashboard/reports/expenses/page.tsx:91-93 | The month comparator is total and transitive. |
| ExpensesReport.Average | src/app/dashboard/reports/expenses/page.tsx:89-90 | The average times the count is the total; with no expenses it is zero. |
| ExpensesReport.MonthTable | src/app/dashboard/reports/expenses/page.tsx:91-93 | The month table holds the same rows as the month grouping, in strictly increasing month order. |
| ExpensesReport.Summarize | src/app/dashboard/reports/expenses/page.tsx:69-95 | The count is the number of filtered expenses; the area and payment-method tables each add up to the total; the month table is sorted and complete; the average is the total over the count, or zero. |
| ExpensesReport.SortedDistinctIsStrict | src/app/dashboard/reports/expenses/page.tsx:91-93 | Sorting rows with distinct months gives strictly increasing months. |
| ExpensesReport.ByDateDescendingConsistent | src/app/dashboard/reports/expenses/page.tsx:334-335 | The newest-first comparator on date texts is total and transitive. |
| PageForms.StoredDatesSortByCalendar | src/app/dashboard/reports/expenses/page.tsx:334-335 | On dates stored as `YYYY-MM-DD HH:mm:ss`, comparing the texts orders them as their timestamps do, and ties only equal moments. |
| ExpensesReport.AmountTable | src/app/dashboard/reports/expenses/page.tsx:204-205 | The by-amount table is a permutation of its rows, largest amount first. |
| ExpensesReport.DetailList | src/app/dashboard/reports/expenses/page.tsx:334-335 | The detail list is a permutation of the filtered expenses, newest date first. |
| ListPage.GatedCountAppend | src/app/dashboard/contracts/page.tsx:88-91 | Guarded error toasts of two runs add up. |
| ListPage.UpdateRows | src/app/dashboard/customers/page.tsx:161-177 | Editing a row keeps the number of rows. |
| ListPage.UpdateTouchesOnlyMatching | src/app/dashboard/customers/page.tsx:166-168 | Only rows with the edited id change, and such a row keeps every field the response leaves out. |
| ListPage.UpdateIdempotent | src/app/dashboard/customers/page.tsx:166-168 | Applying the same update response twice changes nothing more. |
| ListPage.OnReload | src/app/dashboard/customers/page.tsx:126-128 | A refresh refetches what the page shows, keeping rows, page and term. |
| ListPage.OnSearch | src/app/dashboard/customers/page.tsx:88-92 | A search goes back to page 1 with the new term and the same key, and fetches it. |
| ListPage.OnFieldChange | src/app/dashboard/customers/page.tsx:95-101 | Changing the key refetches from page 1 exactly when a term is in place; otherwise only the key changes. |
| ListPage.OnClearSearch | src/app/dashboard/customers/page.tsx:104-109 | Clearing resets to page 1, no term, key "all", not searching, and fetches. |
| ListPage.OnPageChange | src/app/dashboard/customers/page.tsx:112-116 | A page change fetches the page and size asked for, under the same term. |
| ListPage.OnSizeChange | src/app/dashboard/customers/page.tsx:119-123 | A size change goes back to page 1 with the new size. |
| ListPage.OnLoaded | src/app/dashboard/customers/page.tsx:59-69 | A loaded page replaces the rows and totals, and the page then asks for the page and limit the hook answered with. |
| ListPage.ShowOnce | src/app/dashboard/contracts/page.tsx:88-91 | A fetch error is shown only if none was shown before, and afterwards the flag is raised. |
| ListPage.OnCreated | src/app/dashboard/customers/page.tsx:135-146 | A created row is appended with a success toast and no refetch; a failure shows its message and changes nothing. |
| ListPage.OnUpdated | src/app/dashboard/customers/page.tsx:161-177 | A successful edit merges the response into the edited row and closes the edit; a failure only toasts. Only the users page also refetches, because its `fetchUsers()` runs after the `if`. |
| ListPage.OnDeleted | src/app/dashboard/customers/page.tsx:180-193 | A successful delete toasts and refetches, one page back when the deleted row was the only one on a later page; a failure changes nothing. |
| ListPage.OnWorkAddress | src/app/dashboard/customers/page.tsx:148-159 | Creating or deleting a work address refetches and toasts on success, and only toasts on failure. |
| ListPage.OnContractSaved | src/app/dashboard/contracts/page.tsx:228-267 | Saving payments or data refetches on success; a failure goes through the one-shot flag. |
| ListPage.Apply | src/app/dashboard/contracts/page.tsx:77-267 | Every handler keeps the one-shot flag raised once raised, guards exactly the first error it shows, and fetches what the page then shows. |
| ListPage.OneShotGate | src/app/dashboard/contracts/page.tsx:88-91 | Over any run of handlers, at most the toast that raised the flag was gated, and the flag never falls. |
| ListPage.AtMostOneFetchErrorShown | src/app/dashboard/contracts/page.tsx:88-91 | From a fresh page, any sequence of events shows at most one guarded error. |
| ListPage.StepBackAfterLastRow | src/app/dashboard/customers/page.tsx:184-186 | When the only row of a later page is deleted, the previous page is full and the current page would now be empty. |
| ListPage.StayKeepsRows | src/app/dashboard/customers/page.tsx:184-186 | When the page had two rows or more, it still has a row after the delete. |
| PageForms.SubmitWorkAddress | src/app/dashboard/customers/page.tsx:452-526 | The work-address form is accepted exactly when every visible input is filled, and it sends the hidden and visible inputs. |
| PageForms.PresetFormAccepted | src/app/dashboard/customers/page.tsx:223-233 | After the preset, acceptance depends only on what the user typed into the visible inputs. |
| PageForms.PresetSurvivesTyping | src/app/dashboard/customers/page.tsx:223-233 | An accepted form sends the customer's id and the preset coordinates, whatever was typed. |
| PageForms.PresetKept | src/app/dashboard/customers/page.tsx:223-233 | Typing into the visible inputs never overwrites a hidden preset. |
| PageForms.NormaliseExpense | src/app/dashboard/businessExpenses/page.tsx:137-156 | The date is replaced by its text and every other submitted value is kept. |
| PageForms.NormalisedDateKeys | src/app/dashboard/businessExpenses/page.tsx:138 | The stored date passes the contracts page's ISO test, and the report's day and month keys read back the picked day and month. |
| PageForms.StoredDatesFilterByCalendar | src/app/dashboard/reports/expenses/page.tsx:56-62 | The report's string range test on a stored expense date is the calendar test between the two picked days. |
| PageForms.ValidateConfirmPassword | src/app/dashboard/userManagement/page.tsx:140-148 | The confirmation passes exactly when it is truthy and equal to the password; an empty one asks for confirmation. |
| PageForms.PasswordAcceptedIff | src/app/dashboard/userManagement/page.tsx:350-356 | A typed password is accepted exactly when it has at least six characters; an empty one shows only the "required" message. |
| PageForms.ConfirmAcceptedIff | src/app/dashboard/userManagement/page.tsx:360-366 | A typed confirmation is accepted exactly when non-empty and equal to the password, and shows exactly one message otherwise. |
| Json.MissingOf | src/app/dashboard/contracts/create/page.tsx:521-530 | The reported names are exactly the required inputs left unfilled, and none are reported exactly when the form validates. |
| Json.EmailRule | src/app/dashboard/contracts/create/page.tsx:604-610 | Defines the email input's `type: 'email'` rule: an empty value is left to the `required` rule, any other value must be a text of email form. |
| Json.MergeInitial | src/app/dashboard/contracts/create/page.tsx:531 | Mounting a form with initial values gives a store with the keys of both, the store's values kept and the initial values only where the store had none. |
| Json.MergeInitialIdempotent | src/app/dashboard/contracts/create/page.tsx:531 | Mounting the same form again changes nothing more. |
| Json.MergeInitialCovered | src/app/dashboard/contracts/create/page.tsx:531 | A store that already holds every initial key is left as it is. |
| Json.EmailHasOneAt | src/app/dashboard/contracts/create/page.tsx:607 | A text the email rule accepts has exactly one `@`. |
| Json.EmailRuleAccepts | src/app/dashboard/contracts/create/page.tsx:607 | An ordinary address passes the email rule, and an empty field is left to the `required` rule. |
| Json.EmailRuleRejects | src/app/dashboard/contracts/create/page.tsx:607 | A text without `@`, or with a host that has no dot, fails the email rule. |
| Wizard.MalformedEmailBlocksNext | src/app/dashboard/contracts/create/page.tsx:604-610 | On the new-customer form, an email that fails the rule keeps the Next button from doing anything, in both versions of the wizard. |
| Wizard.StaleAddressWithAddress | src/app/dashboard/contracts/create/page.tsx:216-225 | The stale-address walk goes through with a concrete input that passes every rule of the customer step, including the email rule. |
| ContractEdit.PaymentsMounted | src/app/dashboard/contracts/page.tsx:695-723 | The quantity inputs are mounted exactly when the extra box is ticked. |
| ContractEdit.OpenPayments | src/app/dashboard/contracts/page.tsx:181-194 | The payments dialog opens unticked, with the box in step with the form, and every flag and quantity preset. |
| ContractEdit.PaymentsStep | src/app/dashboard/contracts/page.tsx:642-723 | Editing the dialog keeps the box in step with the form, ticking sets the mode, and no preset is lost. |
| ContractEdit.SubmitPayments | src/app/dashboard/contracts/page.tsx:626-723 | The payments form submits exactly the mounted inputs with their values; it is accepted exactly when the required ones are filled, always when unticked; the quantities are sent exactly when ticked. |
| ContractEdit.UntouchedPayments | src/app/dashboard/contracts/page.tsx:181-194 | Submitting the dialog as opened sends back the contract's four payment flags and no quantity. |
| ContractEdit.Sent | src/app/dashboard/contracts/page.tsx:626-723 | A mounted input of an accepted form is sent with its value. |
| ContractEdit.TickedPayments | src/app/dashboard/contracts/page.tsx:695-723 | Ticking the box right after opening sends the contract's stored quantities back. |
| ContractEdit.OpenEdit | src/app/dashboard/contracts/page.tsx:175-203 | The edit dialog shows a removal date exactly when the stored text passes the ISO test, and it is then a valid date. |
| ContractEdit.EditPayload | src/app/dashboard/contracts/page.tsx:245-258 | Saving fails exactly when the start or end date is empty. Otherwise the payload has exactly the edit keys, and the removal date is null exactly when it is empty or invalid, else it is its day text. |
| ContractEdit.SavedRemovalDateReopens | src/app/dashboard/contracts/page.tsx:175-203 | A removal date saved by the edit dialog is shown again when the contract is reopened. |
| Dates.PadDigits | src/app/ui/components/PDFGenerate.tsx:221 | A zero-padded number is all digits and reads back as the number. |
| Dates.PadInjective | src/app/ui/components/PDFGenerate.tsx:221 | Distinct numbers pad to distinct texts. |
| Dates.DigitOrder | src/app/dashboard/reports/expenses/page.tsx:58-60 | Between digit strings of one length, string order is numeric order. |
| Dates.RenderOrder | src/app/dashboard/reports/expenses/page.tsx:58-60 | A layout of fixed-width zero-padded fields orders its texts as it orders the field tuples. |
| Dates.FormatOrder | src/app/dashboard/businessExpenses/page.tsx:138 | Formatted date-times compare as strings exactly as the dates compare on the calendar. |
| Dates.FormatDayOrder | src/app/dashboard/reports/expenses/page.tsx:58-60 | Formatted days compare as strings exactly as the days compare on the calendar. |
| Dates.FormatInjective | src/app/dashboard/businessExpenses/page.tsx:138 | Distinct valid date-times format to distinct texts. |
| Dates.FormatShape | src/app/dashboard/businessExpenses/page.tsx:138 | A formatted date-time has 19 characters, and its first 10 and 7 are the day and month texts. |
| Dates.RenderedDatesAreIso | src/app/dashboard/contracts/page.tsx:175-179 | Formatted days and date-times start with `dddd-dd-dd`. |
| Sorting.Insert | src/app/dashboard/reports/expenses/page.tsx:91-93 | Inserting adds exactly one element to the rows. |
| Sorting.InsertSorted | src/app/dashboard/reports/expenses/page.tsx:91-93 | Inserting into rows sorted by a consistent comparator keeps them sorted. |
| Sorting.Sort | src/app/dashboard/reports/expenses/page.tsx:91-93 | Sorting permutes its input. |
| Sorting.SortSorted | src/app/dashboard/reports/expenses/page.tsx:91-93 | The output of a consistent comparator's sort is ordered by it. |
| Text.Lower | src/app/hooks/useContract.ts:74-82 | Lower-casing keeps the length, leaves no upper-case letter, and changes nothing else. |
| Text.LowerIdempotent | src/app/hooks/useContract.ts:74-82 | Lower-casing twice is lower-casing once. |
| Text.Includes | src/app/hooks/useContract.ts:76-82 | `includes` holds exactly when the needle occurs at some position. |
| Text.DecimalRoundTrip | src/app/ui/components/PDFGenerate.tsx:221 | A number's decimal text reads back as the number. |
| Text.PadStart | src/app/ui/components/PDFGenerate.tsx:221 | Padding reaches the width, keeps the text at the end, and fills only the front. |
| Text.StripZerosPrefix | src/app/ui/components/PDFGenerate.tsx:221 | Removing the zeros put in front of a text without a leading zero gives the text back. |
| Text.ZerosPrefixValue | src/app/ui/components/PDFGenerate.tsx:221 | Zeros in front of a digit string do not change its value. |
| Text.LexLeTransitive | src/app/dashboard/reports/expenses/page.tsx:58-60 | Code-unit string order is transitive. |
| Text.LexLeAntisymmetric | src/app/dashboard/reports/expenses/page.tsx:58-60 | Two strings each at most the other are equal. |
| Entities.WorkAddressValue | src/app/types/Customer.ts:1-27 | A work address as a JSON value is an object carrying its id. |
| Entities.CustomerValue | src/app/types/Customer.ts:1-27 | A customer as a JSON value is an object carrying its id. |

## Left out

- HTTP requests, axios and the REST back end. A hook receives the downloaded list, or the error, as a parameter (`Hooks.Fetched`). A page handler receives the outcome of its request as an event.
- Rendering, modals, navigation, loading spinners and the `loading` flags, which decide nothing the model states.
- React's batching and the order in which asynchronous handlers finish. Each handler is one atomic transition.
- dayjs parsing. The edit dialog receives the parse function as a parameter. Time zones and calendar validity of the parsed day are not modelled; `Dates.Valid` bounds only the field ranges.
- dayjs `diff` in days. `Invoice.IncludedDays` takes the two days as day numbers.
- The current time printed on the PDF ("PDF created …").
- `toLowerCase` beyond ASCII. Only `A`–`Z` are folded.
- Floating point. Money is modelled as integers; the report's average is a real number.
- `Search.Paginate`: requires `limit >= 1`. The hooks divide by the limit, and the pages only ever pass their page-size selector's values.
- `localeCompare` is modelled as code-unit order. The month keys it compares are fixed-width `YYYY-MM` digit strings, on which the two orders agree.
- `Object.entries` ordering. The report's area and payment-method tables are sequences in first-occurrence order; only their sums are stated.
- ExpensesReport.DayKey: takes the first ten characters of the stored date instead of parsing it and formatting it again. The two agree on the `YYYY-MM-DD HH:mm:ss` dates the expenses page stores (`PageForms.NormalisedDateKeys`). ExpensesReport.MonthKey does the same with seven characters.
- The report's request for the first 1000 expenses. The model receives whatever list was loaded.
- The `useCustomer`, `useFix`, `useUser` and `useSelectContract` hooks are not part of this model. They call the back end's own search with no client-side logic.
- The in-place mutation of `Array.prototype.sort`. The model sorts a copy.
- The order of antd's error messages. The password and confirmation errors are modelled as sets.
- The text of the V8 `TypeError` raised when a null date is formatted. `ContractEdit.NullDateError` fixes it as one constant.
- A null `removalDate` from the server. `Entities.Contract` holds it as a string, which may be empty.
- The expenses-report display pages beyond their orderings (the charts and card layouts).
- Drivers, login and the layout pages, which hold no logic of the modelled kind.
- Json.IsEmail: covers the dot-atom form of async-validator's email pattern with ASCII host names, and the 320-character limit of its recent versions. Quoted local parts, bracketed IP hosts and non-ASCII host letters, which the pattern also admits, fail here.
- ExpensesReport.DetailList: sorts by comparing the date texts code unit by code unit instead of the dayjs timestamps the page subtracts. On dates stored as `YYYY-MM-DD HH:mm:ss` the two orders agree (`PageForms.StoredDatesSortByCalendar`); on other texts they may not.
- Json.MergeInitial: merges only the top-level keys. rc-field-form also merges nested plain objects key by key, but the wizard's inputs all have flat names.
- Sorting.Sort: the order of elements the comparator ties is not stated. `Array.prototype.sort` keeps their input order; the report's orderings are stated only up to ties.
- ContractEdit.ReopenedRemovalDate: states only that a reopened and re-saved contract succeeds, not which removal date it sends, because that depends on the parse parameter.

## Findings

| source | as written | input that shows it | evidently intended | confidence | as-written member | corrected member |
|---|---|---|---|---|---|---|
| src/app/dashboard/contracts/create/page.tsx:216-225 | Switching the customer mode to "new" clears the customer and the address inputs, but not the chosen work address; the address step then sends that address's id. | Choose customer A, go on, choose A's address W, go back, switch to "new customer", fill in the fields (with a valid email), go on twice. The draft holds W's id with no customer id. | Switching to a new customer also forgets the chosen work address. | not executed | Wizard.StaleAddressAsWritten | Wizard.ReachableStatesAreConsistent |
| src/app/dashboard/dumpsters/page.tsx:85 | The page offers the status search key as "dumpsterStatus", but `useDumpster` only knows "DumpsterStatus" (src/app/hooks/useDumpster.ts:31). | A dumpster whose status is "available", searched for "available" under the page's status key: the page comes back empty. | The page passes the key the hook compares against, so that a status search finds dumpsters with that status. | not executed | Hooks.DumpsterStatusCounterexample | Hooks.DumpsterSearchByStatus |
