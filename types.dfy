/** The records of the ledger (types.ts). JavaScript numbers are `real`;
    dates are the ISO 8601 strings the screens store; an optional field
    (`notes?: string`, `spendingLimit: number | null`) is an `Option`. */
module LedgerTypes {
  import opened Optional

  /** `TransactionType`: exactly two kinds of entry. */
  datatype TransactionType = Income | Expense

  /** The text each kind is stored and exported as. */
  function TypeText(kind: TransactionType): string {
    match kind
    case Income => "income"
    case Expense => "expense"
  }

  datatype Category = Category(id: string, name: string, icon: string)

  /** One ledger entry. Its category is a copy taken when the entry was
      made, not a reference into the category list. The TypeScript field
      `type` is called `kind` here. */
  datatype Transaction = Transaction(
    id: string,
    kind: TransactionType,
    amount: real,
    category: Category,
    date: string,
    notes: Option<string>)

  datatype Settings = Settings(currency: string, darkMode: bool, spendingLimit: Option<real>)

  /** A payment received against a receivable. */
  datatype Payment = Payment(id: string, amount: real, date: string, notes: Option<string>)

  /** A payment made against a payable has the same fields. */
  type PaymentMade = Payment

  datatype ReceivableStatus = Pending | Received

  /** Money owed to the user, with the payments received so far, oldest first. */
  datatype Receivable = Receivable(
    id: string,
    personName: string,
    amount: real,
    date: string,
    notes: Option<string>,
    status: ReceivableStatus,
    payments: seq<Payment>)

  datatype PayableStatus = Due | Paid

  /** Money the user owes, with the payments made so far, oldest first. */
  datatype Payable = Payable(
    id: string,
    personName: string,
    amount: real,
    date: string,
    notes: Option<string>,
    status: PayableStatus,
    paymentsMade: seq<PaymentMade>)

  /** `Omit<Transaction, 'id'>`: what the add screen and the payment
      operations hand to `addTransaction`. */
  datatype TransactionDraft = TransactionDraft(
    kind: TransactionType,
    amount: real,
    category: Category,
    date: string,
    notes: Option<string>)

  /** `Omit<Payment, 'id'>`: what a payment form hands to the store. */
  datatype PaymentDraft = PaymentDraft(amount: real, date: string, notes: Option<string>)

  /** `Omit<Receivable, 'id' | 'status' | 'payments'>`, and the same for a
      payable: what the add screens hand to the store. */
  datatype DebtDraft = DebtDraft(personName: string, amount: real, date: string, notes: Option<string>)

  function TransactionId(t: Transaction): string { t.id }
  function CategoryId(c: Category): string { c.id }
  function ReceivableId(r: Receivable): string { r.id }
  function PayableId(p: Payable): string { p.id }
  function PaymentAmount(p: Payment): real { p.amount }
  function TransactionAmount(t: Transaction): real { t.amount }
}
