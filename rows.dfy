/** The rows the pages read from the backend, as values. Field names and
    nullability follow the generated table types; a nullable column is an
    `Option`. Money and stock quantities are `real`. */
module Rows {
  import opened Common

  /** A calendar date; `month` runs from 1 (January) to 12 (December). */
  datatype Date = Date(year: int, month: int, day: int)

  datatype Expense = Expense(
    id: string,
    messId: string,
    addedBy: string,
    title: string,
    description: Option<string>,
    amount: real,
    category: string,
    expenseDate: Date,
    createdAt: Date)

  datatype Payment = Payment(
    id: string,
    messId: string,
    memberId: string,
    amount: real,
    paymentDate: Date,
    paymentMethod: string,
    referenceNumber: Option<string>,
    notes: Option<string>)

  datatype InventoryItem = InventoryItem(
    id: string,
    name: string,
    category: string,
    unit: string,
    currentStock: real,
    minimumStock: real,
    costPerUnit: real,
    supplier: Option<string>)

  datatype MenuItem = MenuItem(
    id: string,
    name: string,
    description: Option<string>,
    category: string,
    dayOfWeek: int,
    isActive: bool)

  datatype Profile = Profile(
    id: string,
    userId: string,
    fullName: Option<string>,
    role: Option<string>,
    messId: Option<string>)

  /** What a form submission sends to the backend: a new row for the
      user's mess, or new values for the row being edited. */
  datatype Write<P> = Insert(messId: string, payload: P) | Update(id: string, payload: P)

  function ExpenseAmount(e: Expense): real
  {
    e.amount
  }

  function PaymentAmount(p: Payment): real
  {
    p.amount
  }

  /** `expense.category || 'other'`: the bucket an expense is counted in. */
  function CategoryKey(e: Expense): (r: string)
    ensures r != ""
    ensures e.category != "" ==> r == e.category
  {
    if e.category == "" then "other" else e.category
  }

  /** Low stock: at or below the minimum, equality included. */
  predicate IsLowStock(item: InventoryItem)
  {
    item.currentStock <= item.minimumStock
  }

  /** The submit handlers' common shape: without a mess for the signed-in
      user the submission fails with "No mess found" and nothing is written;
      otherwise the row being edited is updated, or a new row is inserted
      for the mess. */
  function Submit<P>(messId: Option<string>, editing: Option<string>, payload: P): (r: Result<Write<P>>)
    ensures r.Failure? <==> messId.None?
    ensures r.Failure? ==> r.error == "No mess found"
    ensures r.Success? ==> r.value.payload == payload
    ensures r.Success? && editing.Some? ==> r.value == Update(editing.value, payload)
    ensures r.Success? && editing.None? ==> r.value == Insert(messId.value, payload)
  {
    match messId
    case None => Failure("No mess found")
    case Some(m) =>
      match editing
      case Some(id) => Success(Update(id, payload))
      case None => Success(Insert(m, payload))
  }
}
