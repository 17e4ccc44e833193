/**
 * The records the dashboard reads from the REST backend, with the fields the
 * modelled logic uses (the TypeScript interfaces under src/app/types). Money and quantities are
 * integers; see README for what that leaves out.
 */
module Entities {
  import opened Json

  datatype WorkAddress = WorkAddress(
    id: int,
    addressName: string,
    address: string,
    addressCity: string,
    addressState: string,
    addressZipCode: string,
    contactName: string,
    contactPhone: string,
    latitude: int,
    longitude: int,
    customerId: string)

  datatype Customer = Customer(
    id: int,
    name: string,
    taxId: string,
    homeAddress: string,
    city: string,
    state: string,
    email: string,
    phone: string,
    zipCode: string,
    description: string,
    workAddress: seq<WorkAddress>)

  datatype DumpsterStatus = DumpsterStatus(
    id: int,
    name: string,
    colorCode: string,
    isActive: string,
    description: string)

  datatype Dumpster = Dumpster(
    id: int,
    name: string,
    size: int,
    weight: int,
    description: string,
    dumpsterStatus: DumpsterStatus)

  /** A pricing schedule: base fee, land-fill surcharge and the two overage rates. */
  datatype Fix = Fix(
    id: int,
    description: string,
    customAmount: int,
    landFillCost: int,
    tonsOverWeightAmount: int,
    daysOverTimeAmount: int)

  /**
   * The payment record of one contract. The two `payment*OverAmount`
   * fields are quantities (tons, days), not money.
   */
  datatype FixContract = FixContract(
    id: int,
    fix: Fix,
    contractId: int,
    paymentCustomAmount: int,
    madePaymentCustomAmount: bool,
    paymentLandFillCost: int,
    madePaymentLandFillCost: bool,
    paymentTonsOverWeightAmount: int,
    madePaymentTonsOverWeightAmount: bool,
    paymentDaysOverTimeAmount: int,
    madePaymentDaysOverTimeAmount: bool,
    description: string)

  datatype Contract = Contract(
    id: nat,
    customer: Customer,
    workAddress: WorkAddress,
    dumpster: Dumpster,
    fixContract: FixContract,
    startDate: string,
    endDate: string,
    removalDate: string,
    contractStatus: string,
    contractPaymentStatus: string,
    description: string)

  datatype BusinessExpense = BusinessExpense(
    id: int,
    date: string,
    totalAmount: int,
    beneficiary: string,
    invoice: string,
    paymentMethod: string,
    specificArea: string,
    description: string)

  /** The work address as the JSON object the wizard stores. */
  function WorkAddressValue(w: WorkAddress): (v: Value)
    ensures v.Obj? && "id" in v.fields && v.fields["id"] == Num(w.id)
  {
    Obj(map[
      "id" := Num(w.id),
      "addressName" := Str(w.addressName),
      "address" := Str(w.address),
      "addressCity" := Str(w.addressCity),
      "addressState" := Str(w.addressState),
      "addressZipCode" := Str(w.addressZipCode),
      "contactName" := Str(w.contactName),
      "contactPhone" := Str(w.contactPhone),
      "latitude" := Num(w.latitude),
      "longitude" := Num(w.longitude),
      "customerId" := Str(w.customerId)])
  }

  function WorkAddressValues(ws: seq<WorkAddress>): (vs: seq<Value>)
    ensures |vs| == |ws|
    ensures forall i :: 0 <= i < |ws| ==> vs[i] == WorkAddressValue(ws[i])
  {
    seq(|ws|, i requires 0 <= i < |ws| => WorkAddressValue(ws[i]))
  }

  /** The customer as the JSON object the wizard stores, addresses included. */
  function CustomerValue(c: Customer): (v: Value)
    ensures v.Obj? && "id" in v.fields && v.fields["id"] == Num(c.id)
  {
    Obj(map[
      "id" := Num(c.id),
      "name" := Str(c.name),
      "taxId" := Str(c.taxId),
      "homeAddress" := Str(c.homeAddress),
      "city" := Str(c.city),
      "state" := Str(c.state),
      "email" := Str(c.email),
      "phone" := Str(c.phone),
      "zipCode" := Str(c.zipCode),
      "description" := Str(c.description),
      "workAddress" := Arr(WorkAddressValues(c.workAddress))])
  }
}
