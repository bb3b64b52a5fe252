/** The financial management page (src/pages/FinancialManagement.tsx): the
    totals and the balance card, the "this month" figures, the rows joined
    to the profiles of who added or paid them, the payment-method labels,
    and the expense and payment forms. */
module Finance {
  import opened Common
  import opened Text
  import opened Rows
  import opened Aggregate

  function TotalExpenses(expenses: seq<Expense>): real
  {
    SumOf(expenses, ExpenseAmount)
  }

  function TotalPayments(payments: seq<Payment>): real
  {
    SumOf(payments, PaymentAmount)
  }

  /** What came in minus what went out. */
  function Balance(expenses: seq<Expense>, payments: seq<Payment>): (r: real)
    ensures r + TotalExpenses(expenses) == TotalPayments(payments)
  {
    TotalPayments(payments) - TotalExpenses(expenses)
  }

  /** One more payment raises the balance by its amount, one more expense
      lowers it by its amount. */
  lemma BalanceStep(expenses: seq<Expense>, payments: seq<Payment>, e: Expense, p: Payment)
    ensures Balance(expenses, payments + [p]) == Balance(expenses, payments) + p.amount
    ensures Balance(expenses + [e], payments) == Balance(expenses, payments) - e.amount
  {
    assert (payments + [p])[..|payments|] == payments;
    assert (expenses + [e])[..|expenses|] == expenses;
  }

  /** The balance card: a surplus (green) when the balance is not negative,
      a deficit (red) otherwise, and the size of the balance. */
  datatype Standing = Surplus | Deficit
  datatype BalanceCard = BalanceCard(standing: Standing, magnitude: real)

  function BalanceCardOf(balance: real): (r: BalanceCard)
    ensures r.standing == Surplus <==> balance >= 0.0
    ensures r.magnitude >= 0.0
    ensures Signed(r) == balance
  {
    if balance >= 0.0 then BalanceCard(Surplus, balance) else BalanceCard(Deficit, -balance)
  }

  /** The balance a card stands for. */
  function Signed(c: BalanceCard): real
  {
    if c.standing == Surplus then c.magnitude else -c.magnitude
  }

  /** The page's "this month" test: the month number of the row's date
      equals the current month number, whatever the years. */
  function ExpenseInMonthOf(today: Date): Expense -> bool
  {
    (e: Expense) => e.expenseDate.month == today.month
  }

  function PaymentInMonthOf(today: Date): Payment -> bool
  {
    (p: Payment) => p.paymentDate.month == today.month
  }

  /** "This month" expenses as the page computes them. */
  function CurrentMonthExpensesAsWritten(expenses: seq<Expense>, today: Date): real
  {
    SumOf(Filter(expenses, ExpenseInMonthOf(today)), ExpenseAmount)
  }

  /** "This month" payments as the page computes them. */
  function CurrentMonthPaymentsAsWritten(payments: seq<Payment>, today: Date): real
  {
    SumOf(Filter(payments, PaymentInMonthOf(today)), PaymentAmount)
  }

  /** With non-negative amounts neither "this month" figure exceeds its
      overall total. */
  lemma CurrentMonthBounded(expenses: seq<Expense>, payments: seq<Payment>, today: Date)
    requires forall e :: e in expenses ==> e.amount >= 0.0
    requires forall p :: p in payments ==> p.amount >= 0.0
    ensures CurrentMonthExpensesAsWritten(expenses, today) <= TotalExpenses(expenses)
    ensures CurrentMonthPaymentsAsWritten(payments, today) <= TotalPayments(payments)
  {
    FilteredSumBounded(expenses, ExpenseInMonthOf(today), ExpenseAmount);
    FilteredSumBounded(payments, PaymentInMonthOf(today), PaymentAmount);
  }

  /** The year is ignored: an expense from May 2023 counts among the
      expenses of "this month" in May 2024. */
  lemma CurrentMonthIgnoresYear()
    ensures var stale := Expense("e1", "m1", "u1", "gas", None, 900.0, "gas",
                               Date(2023, 5, 14), Date(2023, 5, 14));
      CurrentMonthExpensesAsWritten([stale], Date(2024, 5, 20)) == 900.0
      && CurrentMonthExpenses([stale], Date(2024, 5, 20)) == 0.0
  {
    var stale := Expense("e1", "m1", "u1", "gas", None, 900.0, "gas",
                       Date(2023, 5, 14), Date(2023, 5, 14));
    assert [stale][..0] == [];
  }

  /** The intended test: same year and same month as today. */
  function ExpenseInCurrentMonth(today: Date): Expense -> bool
  {
    (e: Expense) => e.expenseDate.year == today.year && e.expenseDate.month == today.month
  }

  function PaymentInCurrentMonth(today: Date): Payment -> bool
  {
    (p: Payment) => p.paymentDate.year == today.year && p.paymentDate.month == today.month
  }

  function CurrentMonthExpenses(expenses: seq<Expense>, today: Date): real
  {
    SumOf(Filter(expenses, ExpenseInCurrentMonth(today)), ExpenseAmount)
  }

  function CurrentMonthPayments(payments: seq<Payment>, today: Date): real
  {
    SumOf(Filter(payments, PaymentInCurrentMonth(today)), PaymentAmount)
  }

  /** The calendar month of an expense's date. */
  function ExpenseMonth(e: Expense): (int, int)
  {
    (e.expenseDate.year, e.expenseDate.month)
  }

  /** The corrected figure is exactly the current calendar month's bucket
      when the expenses are grouped by (year, month). */
  lemma CurrentMonthIsMonthBucket(expenses: seq<Expense>, today: Date)
    ensures CurrentMonthExpenses(expenses, today)
         == Lookup(GroupSums(expenses, ExpenseMonth, ExpenseAmount), (today.year, today.month))
  {
    GroupSumsLookup(expenses, ExpenseMonth, ExpenseAmount, (today.year, today.month));
    FilterAgree(expenses, ExpenseInCurrentMonth(today), KeyIs(ExpenseMonth, (today.year, today.month)));
  }

  /** When every row is from the current year the page's figures are right. */
  lemma CurrentMonthAgreesWithinYear(expenses: seq<Expense>, payments: seq<Payment>, today: Date)
    requires forall e :: e in expenses ==> e.expenseDate.year == today.year
    requires forall p :: p in payments ==> p.paymentDate.year == today.year
    ensures CurrentMonthExpensesAsWritten(expenses, today) == CurrentMonthExpenses(expenses, today)
    ensures CurrentMonthPaymentsAsWritten(payments, today) == CurrentMonthPayments(payments, today)
  {
    FilterAgree(expenses, ExpenseInMonthOf(today), ExpenseInCurrentMonth(today));
    FilterAgree(payments, PaymentInMonthOf(today), PaymentInCurrentMonth(today));
  }

  /** A row together with the profile found for it, if any. */
  datatype Joined<R> = Joined(row: R, profile: Option<Profile>)

  function AddedBy(userId: string): Profile -> bool
  {
    (p: Profile) => p.userId == userId
  }

  function IsMember(memberId: string): Profile -> bool
  {
    (p: Profile) => p.id == memberId
  }

  /** Each expense with the first profile whose user id is the expense's
      `added_by`. */
  function JoinExpenses(expenses: seq<Expense>, profiles: seq<Profile>): (r: seq<Joined<Expense>>)
    ensures |r| == |expenses|
    ensures forall i :: 0 <= i < |r| ==> r[i].row == expenses[i]
  {
    seq(|expenses|, i requires 0 <= i < |expenses| =>
      Joined(expenses[i], Find(profiles, AddedBy(expenses[i].addedBy))))
  }

  /** Each payment with the first profile whose id is the payment's member. */
  function JoinPayments(payments: seq<Payment>, profiles: seq<Profile>): (r: seq<Joined<Payment>>)
    ensures |r| == |payments|
    ensures forall i :: 0 <= i < |r| ==> r[i].row == payments[i]
  {
    seq(|payments|, i requires 0 <= i < |payments| =>
      Joined(payments[i], Find(profiles, IsMember(payments[i].memberId))))
  }

  /** The profile joined to an expense is the first one with a matching user
      id, and there is none exactly when no profile matches. */
  lemma JoinExpensesMatches(expenses: seq<Expense>, profiles: seq<Profile>, i: nat)
    requires i < |expenses|
    ensures var got := JoinExpenses(expenses, profiles)[i].profile;
      (got.None? <==> forall j :: 0 <= j < |profiles| ==> profiles[j].userId != expenses[i].addedBy)
      && (got.Some? ==> exists j :: (0 <= j < |profiles| && profiles[j] == got.value
            && got.value.userId == expenses[i].addedBy
            && forall k :: 0 <= k < j ==> profiles[k].userId != expenses[i].addedBy))
  {
    var got := Find(profiles, AddedBy(expenses[i].addedBy));
    assert JoinExpenses(expenses, profiles)[i].profile == got;
  }

  /** The profile joined to a payment is the first one with a matching id,
      and there is none exactly when no profile matches. */
  lemma JoinPaymentsMatches(payments: seq<Payment>, profiles: seq<Profile>, i: nat)
    requires i < |payments|
    ensures var got := JoinPayments(payments, profiles)[i].profile;
      (got.None? <==> forall j :: 0 <= j < |profiles| ==> profiles[j].id != payments[i].memberId)
      && (got.Some? ==> exists j :: (0 <= j < |profiles| && profiles[j] == got.value
            && got.value.id == payments[i].memberId
            && forall k :: 0 <= k < j ==> profiles[k].id != payments[i].memberId))
  {
    var got := Find(profiles, IsMember(payments[i].memberId));
    assert JoinPayments(payments, profiles)[i].profile == got;
  }

  /** The name on a payment card: the member's full name, or
      "Unknown Member" when there is no profile or no name. */
  function PayerName(j: Joined<Payment>): (r: string)
    ensures r == "Unknown Member" <==>
      (j.profile.None? || j.profile.value.fullName.None? || j.profile.value.fullName.value in {"", "Unknown Member"})
    ensures r != "Unknown Member" ==> j.profile.Some? && j.profile.value.fullName == Some(r)
  {
    match j.profile
    case Some(Profile(_, _, Some(name), _, _)) => if name == "" then "Unknown Member" else name
    case _ => "Unknown Member"
  }

  /** The label of a payment method: its underscore-separated words
      capitalized and joined with spaces. */
  function MethodLabel(m: string): (r: string)
    ensures |r| == |m|
    ensures forall i :: 0 <= i < |m| ==> r[i] == TitleChar(m, i)
  {
    TitleCaseShape(m);
    TitleCase(m)
  }

  /** For example, `bank_transfer` is labelled `Bank Transfer`. */
  lemma BankTransferLabel()
    ensures MethodLabel("bank_transfer") == "Bank Transfer"
  {
    var key := "bank_transfer";
    var b := MethodLabel(key);
    assert Upper('b') == 'B' && Upper('t') == 'T';
    assert b[0] == 'B' && b[1] == 'a' && b[2] == 'n' && b[3] == 'k' && b[4] == ' ';
    assert b[5] == 'T' && b[6] == 'r' && b[7] == 'a' && b[8] == 'n';
    assert b[9] == 's' && b[10] == 'f' && b[11] == 'e' && b[12] == 'r';
  }

  /** The expense dialog's fields. */
  datatype ExpenseForm = ExpenseForm(title: string, description: string, amount: real,
                                     category: string, expenseDate: Date)

  /** The expense columns the dialog writes. */
  datatype ExpenseFields = ExpenseFields(title: string, description: Option<string>, amount: real,
                                         category: string, expenseDate: Date)

  /** What saving the expense dialog writes: a new expense for the mess,
      recorded as added by the signed-in user, or new values for the
      expense being edited. */
  datatype ExpenseWrite =
    | InsertExpense(messId: string, addedBy: Option<string>, fields: ExpenseFields)
    | UpdateExpense(id: string, fields: ExpenseFields)

  /** The blank expense dialog, dated today. */
  function BlankExpenseForm(today: Date): ExpenseForm
  {
    ExpenseForm("", "", 0.0, "groceries", today)
  }

  /** The columns written; an empty description is stored as null. */
  function ExpensePayload(form: ExpenseForm): (r: ExpenseFields)
    ensures r.description.None? <==> form.description == ""
    ensures EmptyIfNull(r.description) == form.description
    ensures r.title == form.title && r.amount == form.amount
    ensures r.category == form.category && r.expenseDate == form.expenseDate
  {
    ExpenseFields(form.title, NullIfEmpty(form.description), form.amount, form.category, form.expenseDate)
  }

  /** Saving the expense dialog: the write, and the dialog afterwards
      (blank and dated today after a save, unchanged after a failure). */
  function SubmitExpense(messId: Option<string>, userId: Option<string>, editing: Option<string>,
                         form: ExpenseForm, today: Date): (r: (Result<ExpenseWrite>, ExpenseForm))
    ensures r.0.Failure? <==> messId.None?
    ensures r.0.Failure? ==> r.0.error == "No mess found"
    ensures r.0.Success? ==> r.0.value.fields == ExpensePayload(form)
    ensures r.0.Success? && editing.Some? ==> r.0.value == UpdateExpense(editing.value, ExpensePayload(form))
    ensures r.0.Success? && editing.None? ==>
      r.0.value == InsertExpense(messId.value, userId, ExpensePayload(form))
    ensures r.1 == if r.0.Success? then BlankExpenseForm(today) else form
  {
    match Submit(messId, editing, ExpensePayload(form))
    case Failure(msg) => (Failure(msg), form)
    case Success(Update(id, fields)) => (Success(UpdateExpense(id, fields)), BlankExpenseForm(today))
    case Success(Insert(m, fields)) => (Success(InsertExpense(m, userId, fields)), BlankExpenseForm(today))
  }

  /** The payment dialog's fields. */
  datatype PaymentForm = PaymentForm(memberId: string, amount: real, paymentDate: Date,
                                     paymentMethod: string, referenceNumber: string, notes: string)

  /** The payment columns the dialog writes. */
  datatype PaymentFields = PaymentFields(memberId: string, amount: real, paymentDate: Date,
                                         paymentMethod: string, referenceNumber: Option<string>,
                                         notes: Option<string>)

  /** The blank payment dialog, dated today and set to cash. */
  function BlankPaymentForm(today: Date): PaymentForm
  {
    PaymentForm("", 0.0, today, "cash", "", "")
  }

  /** The columns written; an empty reference number or note is stored as null. */
  function PaymentPayload(form: PaymentForm): (r: PaymentFields)
    ensures r.referenceNumber.None? <==> form.referenceNumber == ""
    ensures r.notes.None? <==> form.notes == ""
    ensures EmptyIfNull(r.referenceNumber) == form.referenceNumber
    ensures EmptyIfNull(r.notes) == form.notes
    ensures r.memberId == form.memberId && r.amount == form.amount
    ensures r.paymentDate == form.paymentDate && r.paymentMethod == form.paymentMethod
  {
    PaymentFields(form.memberId, form.amount, form.paymentDate, form.paymentMethod,
                  NullIfEmpty(form.referenceNumber), NullIfEmpty(form.notes))
  }

  /** Saving the payment dialog: the write, and the dialog afterwards. */
  function SubmitPayment(messId: Option<string>, editing: Option<string>, form: PaymentForm, today: Date)
    : (r: (Result<Write<PaymentFields>>, PaymentForm))
    ensures r.0.Failure? <==> messId.None?
    ensures r.0.Failure? ==> r.0.error == "No mess found"
    ensures r.0.Success? ==> r.0.value.payload == PaymentPayload(form)
    ensures r.0.Success? ==> (r.0.value.Update? <==> editing.Some?)
    ensures r.0.Success? && editing.Some? ==> r.0.value.id == editing.value
    ensures r.0.Success? && editing.None? ==> r.0.value.messId == messId.value
    ensures r.1 == if r.0.Success? then BlankPaymentForm(today) else form
  {
    var write := Submit(messId, editing, PaymentPayload(form));
    (write, if write.Success? then BlankPaymentForm(today) else form)
  }
}
