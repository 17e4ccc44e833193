/**
 * Invoice arithmetic of the PDF generator (src/app/ui/components/PDFGenerate.tsx)
 * and the payment amounts shown in the contract list's expanded row
 * (src/app/dashboard/contracts/page.tsx).
 */
module Invoice {
  import opened Text
  import opened Entities

  // ---------------------------------------------------------------------------
  // Charges

  /** The base fee: custom amount plus land-fill cost. */
  function BaseFee(fix: Fix): int {
    fix.customAmount + fix.landFillCost
  }

  /** Recorded overtime days times the daily rate. */
  function DaysCharge(fc: FixContract): int {
    fc.paymentDaysOverTimeAmount * fc.fix.daysOverTimeAmount
  }

  /** Recorded overweight tons times the per-ton rate. */
  function TonsCharge(fc: FixContract): int {
    fc.paymentTonsOverWeightAmount * fc.fix.tonsOverWeightAmount
  }

  /**
   * `getTotalDue`: the base fee, plus each overage charge whose recorded
   * quantity is positive. A zero or negative quantity adds nothing.
   */
  function TotalDue(fc: FixContract): (due: int)
    ensures fc.paymentDaysOverTimeAmount <= 0 && fc.paymentTonsOverWeightAmount <= 0 ==>
      due == BaseFee(fc.fix)
  {
    var due := BaseFee(fc.fix);
    var due := if fc.paymentDaysOverTimeAmount > 0 then due + DaysCharge(fc) else due;
    if fc.paymentTonsOverWeightAmount > 0 then due + TonsCharge(fc) else due
  }

  /** The days term is added exactly when the recorded days are positive, whatever the tons. */
  lemma DaysTermAddedIffPositive(fc: FixContract)
    ensures fc.paymentDaysOverTimeAmount > 0 ==>
      TotalDue(fc) == TotalDue(fc.(paymentDaysOverTimeAmount := 0)) + DaysCharge(fc)
    ensures fc.paymentDaysOverTimeAmount <= 0 ==>
      TotalDue(fc) == TotalDue(fc.(paymentDaysOverTimeAmount := 0))
  {
  }

  /** The tons term is added exactly when the recorded tons are positive, whatever the days. */
  lemma TonsTermAddedIffPositive(fc: FixContract)
    ensures fc.paymentTonsOverWeightAmount > 0 ==>
      TotalDue(fc) == TotalDue(fc.(paymentTonsOverWeightAmount := 0)) + TonsCharge(fc)
    ensures fc.paymentTonsOverWeightAmount <= 0 ==>
      TotalDue(fc) == TotalDue(fc.(paymentTonsOverWeightAmount := 0))
  {
  }

  /** The payment flags and the stored payment amounts never enter the total. */
  lemma TotalIgnoresPaymentFlags(fc: FixContract, other: FixContract)
    requires other.fix == fc.fix
    requires other.paymentDaysOverTimeAmount == fc.paymentDaysOverTimeAmount
    requires other.paymentTonsOverWeightAmount == fc.paymentTonsOverWeightAmount
    ensures TotalDue(other) == TotalDue(fc)
  {
  }

  // ---------------------------------------------------------------------------
  // The items table on page 2

  datatype LineKind = BaseFeeLine | DaysOverTimeLine | TonsOverWeightLine

  /**
   * One row of the items table: its label (kind, recorded units and unit
   * rate), the Quantity column (always 1), the Price and the Amount columns.
   */
  datatype LineItem = LineItem(kind: LineKind, units: int, rate: int, quantity: int, price: int, amount: int)

  function Line(kind: LineKind, units: int, rate: int, amount: int): LineItem {
    LineItem(kind, units, rate, 1, amount, amount)
  }

  predicate HasLine(items: seq<LineItem>, kind: LineKind) {
    exists i :: 0 <= i < |items| && items[i].kind == kind
  }

  /** The rows of the items table, in the order they are rendered. */
  function LineItems(fc: FixContract): (items: seq<LineItem>)
    ensures 1 <= |items| <= 3
    ensures items[0] == Line(BaseFeeLine, 1, BaseFee(fc.fix), BaseFee(fc.fix))
    ensures HasLine(items, DaysOverTimeLine) <==> fc.paymentDaysOverTimeAmount > 0
    ensures HasLine(items, TonsOverWeightLine) <==> fc.paymentTonsOverWeightAmount > 0
    ensures forall i :: 0 <= i < |items| ==> items[i].quantity == 1 && items[i].price == items[i].amount
    ensures forall i :: 0 <= i < |items| && items[i].kind == DaysOverTimeLine ==>
      items[i].amount == DaysCharge(fc) && items[i].units == fc.paymentDaysOverTimeAmount
    ensures forall i :: 0 <= i < |items| && items[i].kind == TonsOverWeightLine ==>
      items[i].amount == TonsCharge(fc) && items[i].units == fc.paymentTonsOverWeightAmount
    ensures forall i, j :: 0 <= i < j < |items| ==> items[i].kind != items[j].kind
  {
    var base := [Line(BaseFeeLine, 1, BaseFee(fc.fix), BaseFee(fc.fix))];
    var days := if fc.paymentDaysOverTimeAmount > 0 then
      [Line(DaysOverTimeLine, fc.paymentDaysOverTimeAmount, fc.fix.daysOverTimeAmount, DaysCharge(fc))]
    else [];
    var tons := if fc.paymentTonsOverWeightAmount > 0 then
      [Line(TonsOverWeightLine, fc.paymentTonsOverWeightAmount, fc.fix.tonsOverWeightAmount, TonsCharge(fc))]
    else [];
    var items := base + days + tons;
    assert fc.paymentDaysOverTimeAmount > 0 ==> items[1].kind == DaysOverTimeLine;
    assert fc.paymentTonsOverWeightAmount > 0 ==> items[|items| - 1].kind == TonsOverWeightLine;
    items
  }

  /** The sum of the Amount column. */
  function SumAmounts(items: seq<LineItem>): int {
    if |items| == 0 then 0 else SumAmounts(items[..|items| - 1]) + items[|items| - 1].amount
  }

  lemma {:induction false} SumAmountsAppend(a: seq<LineItem>, b: seq<LineItem>)
    ensures SumAmounts(a + b) == SumAmounts(a) + SumAmounts(b)
    decreases |b|
  {
    if |b| > 0 {
      assert (a + b)[..|a + b| - 1] == a + b[..|b| - 1];
      SumAmountsAppend(a, b[..|b| - 1]);
    } else {
      assert a + b == a;
    }
  }

  /** The rendered rows add up to the printed total. */
  lemma LineItemsAddUp(fc: FixContract)
    ensures SumAmounts(LineItems(fc)) == TotalDue(fc)
  {
    var base := [Line(BaseFeeLine, 1, BaseFee(fc.fix), BaseFee(fc.fix))];
    var days := if fc.paymentDaysOverTimeAmount > 0 then
      [Line(DaysOverTimeLine, fc.paymentDaysOverTimeAmount, fc.fix.daysOverTimeAmount, DaysCharge(fc))]
    else [];
    var tons := if fc.paymentTonsOverWeightAmount > 0 then
      [Line(TonsOverWeightLine, fc.paymentTonsOverWeightAmount, fc.fix.tonsOverWeightAmount, TonsCharge(fc))]
    else [];
    SumAmountsAppend(base + days, tons);
    SumAmountsAppend(base, days);
  }

  // ---------------------------------------------------------------------------
  // Invoice number and rental term

  /** `id.toString().padStart(6, '0')`. */
  function InvoiceNumber(id: nat): string {
    PadStart(NatToDecimal(id), 6, '0')
  }

  /**
   * The invoice number is the id's digits behind enough zeros to make six
   * characters; it reads back as the id, and stripping its zeros gives the
   * id's digits.
   */
  lemma InvoiceNumberRoundTrip(id: nat)
    ensures |InvoiceNumber(id)| == if |NatToDecimal(id)| >= 6 then |NatToDecimal(id)| else 6
    ensures AllDigits(InvoiceNumber(id))
    ensures DecimalValue(InvoiceNumber(id)) == id
    ensures id > 0 ==> StripLeadingZeros(InvoiceNumber(id)) == NatToDecimal(id)
  {
    var d := NatToDecimal(id);
    var k := if |d| >= 6 then 0 else 6 - |d|;
    assert InvoiceNumber(id) == Repeat('0', k) + d;
    ZerosPrefixValue(k, d);
    DecimalRoundTrip(id);
    if id > 0 {
      StripZerosPrefix(k, d);
    }
  }

  /**
   * Included rental days: the absolute day difference between start and end
   * (`Math.abs(dayjs(start).diff(dayjs(end), 'day'))`), with both dates
   * given as day numbers.
   */
  function IncludedDays(startDay: int, endDay: int): (days: nat)
    ensures startDay + days == endDay || endDay + days == startDay
  {
    if startDay <= endDay then endDay - startDay else startDay - endDay
  }

  /** The included days do not depend on which date comes first, and vanish only for equal dates. */
  lemma IncludedDaysSymmetric(startDay: int, endDay: int)
    ensures IncludedDays(startDay, endDay) == IncludedDays(endDay, startDay)
    ensures IncludedDays(startDay, endDay) == 0 <==> startDay == endDay
  {
  }

  // ---------------------------------------------------------------------------
  // The figures the document prints

  /**
   * What the two-page invoice prints for a contract: the invoice number
   * (three places), the base fee of clause 1, the included days of clause 3,
   * the page-1 payment amount, the items table, Subtotal and Total Due.
   */
  datatype InvoiceFigures = InvoiceFigures(
    number: string,
    clauseBaseFee: int,
    includedDays: nat,
    paymentDue: int,
    items: seq<LineItem>,
    subtotal: int,
    totalDue: int)

  function Figures(c: Contract, startDay: int, endDay: int): (f: InvoiceFigures)
    ensures SumAmounts(f.items) == f.subtotal == f.totalDue == f.paymentDue
    ensures |f.items| >= 1 && f.clauseBaseFee == f.items[0].amount
    ensures AllDigits(f.number) && DecimalValue(f.number) == c.id
    ensures f.includedDays == IncludedDays(endDay, startDay)
  {
    IncludedDaysSymmetric(startDay, endDay);
    LineItemsAddUp(c.fixContract);
    InvoiceNumberRoundTrip(c.id);
    InvoiceFigures(
      InvoiceNumber(c.id),
      BaseFee(c.fixContract.fix),
      IncludedDays(startDay, endDay),
      TotalDue(c.fixContract),
      LineItems(c.fixContract),
      TotalDue(c.fixContract),
      TotalDue(c.fixContract))
  }

  // ---------------------------------------------------------------------------
  // Expanded row of the contract list

  const PaidColour := "#87d068"
  const UnpaidColour := "#97161a"
  const RateColour := "#FFBF00"

  /** A tag showing an amount, coloured by whether that component has been paid. */
  datatype AmountTag = AmountTag(amount: int, colour: string)

  function PaymentTag(amount: int, paid: bool): (t: AmountTag)
    ensures t.amount == amount
    ensures t.colour == PaidColour <==> paid
    ensures t.colour == UnpaidColour <==> !paid
  {
    AmountTag(amount, if paid then PaidColour else UnpaidColour)
  }

  /** The four (rate, payment) tag pairs the expanded row shows. */
  datatype ExpandedRow = ExpandedRow(
    customRate: AmountTag, customPaid: AmountTag,
    landFillRate: AmountTag, landFillPaid: AmountTag,
    tonsRate: AmountTag, tonsPaid: AmountTag,
    daysRate: AmountTag, daysPaid: AmountTag)

  /**
   * The expanded row: each component's rate tag and its payment tag. The
   * overage amounts are quantity times rate with no positivity test.
   */
  function Expanded(fc: FixContract): (row: ExpandedRow)
    ensures row.customPaid == PaymentTag(fc.paymentCustomAmount, fc.madePaymentCustomAmount)
    ensures row.landFillPaid == PaymentTag(fc.paymentLandFillCost, fc.madePaymentLandFillCost)
    ensures row.tonsPaid == PaymentTag(TonsCharge(fc), fc.madePaymentTonsOverWeightAmount)
    ensures row.daysPaid == PaymentTag(DaysCharge(fc), fc.madePaymentDaysOverTimeAmount)
  {
    ExpandedRow(
      AmountTag(fc.fix.customAmount, RateColour),
      PaymentTag(fc.paymentCustomAmount, fc.madePaymentCustomAmount),
      AmountTag(fc.fix.landFillCost, RateColour),
      PaymentTag(fc.paymentLandFillCost, fc.madePaymentLandFillCost),
      AmountTag(fc.fix.tonsOverWeightAmount, RateColour),
      PaymentTag(TonsCharge(fc), fc.madePaymentTonsOverWeightAmount),
      AmountTag(fc.fix.daysOverTimeAmount, RateColour),
      PaymentTag(DaysCharge(fc), fc.madePaymentDaysOverTimeAmount))
  }

  /**
   * Where the two views agree and differ: with positive quantities the
   * expanded row's overage amounts are the invoice's line amounts; with a
   * negative quantity the invoice drops the line while the row still shows
   * the (negative) product.
   */
  lemma ExpandedRowAgreesWithInvoice(fc: FixContract)
    ensures fc.paymentDaysOverTimeAmount > 0 ==>
      exists i :: 0 <= i < |LineItems(fc)| && LineItems(fc)[i].kind == DaysOverTimeLine &&
        LineItems(fc)[i].amount == Expanded(fc).daysPaid.amount
    ensures fc.paymentTonsOverWeightAmount > 0 ==>
      exists i :: 0 <= i < |LineItems(fc)| && LineItems(fc)[i].kind == TonsOverWeightLine &&
        LineItems(fc)[i].amount == Expanded(fc).tonsPaid.amount
    ensures fc.paymentDaysOverTimeAmount < 0 && fc.fix.daysOverTimeAmount != 0 ==>
      !HasLine(LineItems(fc), DaysOverTimeLine) && Expanded(fc).daysPaid.amount != 0
  {
    var items := LineItems(fc);
    if fc.paymentDaysOverTimeAmount > 0 {
      var i :| 0 <= i < |items| && items[i].kind == DaysOverTimeLine;
      assert items[i].amount == Expanded(fc).daysPaid.amount;
    }
    if fc.paymentTonsOverWeightAmount > 0 {
      var i :| 0 <= i < |items| && items[i].kind == TonsOverWeightLine;
      assert items[i].amount == Expanded(fc).tonsPaid.amount;
    }
  }
}
