/** The payable detail screen (components/payables/PayableDetail.tsx): what
    has been paid and what remains, the guard on a new payment, the payment
    form's visibility and the newest-first payment history. */
module PayableDetail {
  import opened Optional
  import opened Lists
  import opened LedgerTypes
  import opened LedgerRules
  import opened AppContext

  /** `paidAmount`: the sum of the payments made so far. */
  function PaidAmount(q: Payable): real {
    TotalPaid(q.paymentsMade)
  }

  /** `remainingAmount`. */
  function RemainingAmount(q: Payable): real {
    q.amount - PaidAmount(q)
  }

  /** The submit guard: an amount was entered, it is positive and it is at
      most what remains. An empty field is `None`. */
  predicate AcceptsPayment(entry: Option<real>, remaining: real) {
    entry.Some? && entry.value > 0.0 && entry.value <= remaining
  }

  /** The payment form is shown only while the payable is due. */
  predicate FormOffered(q: Payable) {
    q.status == Due
  }

  /** The history list: the payments, newest first. */
  function History(q: Payable): (r: seq<PaymentMade>)
    ensures |r| == |q.paymentsMade|
    ensures forall i :: 0 <= i < |r| ==> r[i] == q.paymentsMade[|q.paymentsMade| - 1 - i]
  {
    Reverse(q.paymentsMade)
  }

  /** For a due payable the remaining amount shown here is what it adds to
      the store's `totalDuePayables`; for a paid one it adds nothing. */
  lemma RemainingIsDueShare(q: Payable)
    ensures q.status == Due ==> RemainingAmount(q) == DueShare(q)
    ensures q.status == Paid ==> DueShare(q) == 0.0
  {
  }

  /** A payment the guard accepts, on a payable not overpaid before, leaves
      it not overpaid; the payable becomes paid exactly when nothing
      remains, and the remaining amount falls by the payment. */
  lemma AcceptedPaymentKeepsBounds(q: Payable, entry: Option<real>, p: PaymentMade)
    requires PaidAmount(q) <= q.amount
    requires AcceptsPayment(entry, RemainingAmount(q)) && p.amount == entry.value
    ensures PaidAmount(CreditPayable(q, p)) <= q.amount
    ensures RemainingAmount(CreditPayable(q, p)) == RemainingAmount(q) - p.amount
    ensures CreditPayable(q, p).status == Paid <==> RemainingAmount(CreditPayable(q, p)) == 0.0
    ensures RemainingAmount(CreditPayable(q, p)) < RemainingAmount(q)
  {
    assert (q.paymentsMade + [p])[..|q.paymentsMade|] == q.paymentsMade;
  }

  /** After a payment the form stays on screen exactly while something
      remains to be paid, since the payment recomputes the status. */
  lemma FormOfferedWhileOwed(q: Payable, p: PaymentMade)
    ensures FormOffered(CreditPayable(q, p)) <==> RemainingAmount(CreditPayable(q, p)) > 0.0
  {
  }

  /** After a payment the history starts with it, followed by the history
      shown before. */
  lemma HistoryShowsNewestFirst(q: Payable, p: PaymentMade)
    ensures History(CreditPayable(q, p)) == [p] + History(q)
    ensures History(CreditPayable(q, p))[0] == p
  {
    var ps := q.paymentsMade + [p];
    assert ps[..|ps| - 1] == q.paymentsMade;
  }

  /** `handleAddPayment` on the screen of the payable `payableId`: when the
      guard accepts the entry the store records the payment (and posts its
      expense); otherwise the store is left alone. The date is the form's
      date already in ISO form. */
  method SubmitPayment(store: Store, payableId: string, entry: Option<real>, date: string, notes: string,
                       paymentId: string, transactionId: string)
    returns (recorded: bool)
    requires store.Valid()
    requires FindById(store.payables, PayableId, payableId).Some?
    requires !HasId(store.transactions, TransactionId, transactionId)
    modifies store
    ensures recorded == AcceptsPayment(entry, RemainingAmount(FindById(old(store.payables), PayableId, payableId).value))
    ensures !recorded ==>
      && store.transactions == old(store.transactions) && store.payables == old(store.payables)
      && store.receivables == old(store.receivables) && store.categories == old(store.categories)
      && store.settings == old(store.settings)
    ensures recorded ==>
      && store.payables == ApplyPaymentMade(old(store.payables), payableId,
                                            NewPayment(PaymentDraft(entry.value, date, Some(notes)), paymentId))
      && store.transactions == AddSorted(
           NewTransaction(ExpenseFromPayment(FindById(old(store.payables), PayableId, payableId).value.personName,
                                             PaymentDraft(entry.value, date, Some(notes)), old(store.categories)),
                          transactionId),
           old(store.transactions), TransactionKey(store.stamp))
      && store.receivables == old(store.receivables) && store.categories == old(store.categories)
      && store.settings == old(store.settings)
    ensures store.Valid()
  {
    var q := FindById(store.payables, PayableId, payableId).value;
    recorded := AcceptsPayment(entry, RemainingAmount(q));
    if recorded {
      store.AddPaymentMade(payableId, PaymentDraft(entry.value, date, Some(notes)), paymentId, transactionId);
    }
  }
}
