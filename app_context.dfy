/** The ledger store (contexts/AppContext.tsx): five collections that every
    operation replaces, kept with distinct identifiers and, for the three
    dated lists, newest first. The totals the store exposes are the
    `LedgerRules` folds over these fields. */
module AppContext {
  import opened Optional
  import opened Lists
  import opened LedgerTypes
  import opened Constants
  import opened LedgerRules

  /** What local storage holds when the store starts; a key never written is
      `None` and falls back to its default. */
  datatype Stored = Stored(
    transactions: Option<seq<Transaction>>,
    categories: Option<seq<Category>>,
    settings: Option<Settings>,
    receivables: Option<seq<Receivable>>,
    payables: Option<seq<Payable>>)

  /** The shape every list of the store keeps: distinct identifiers in all
      four lists, and the dated lists sorted newest first. */
  ghost predicate WellFormed(ts: seq<Transaction>, cs: seq<Category>, rs: seq<Receivable>,
                             ps: seq<Payable>, stamp: string -> int)
  {
    && DistinctIds(ts, TransactionId) && SortedDesc(ts, TransactionKey(stamp))
    && DistinctIds(cs, CategoryId)
    && DistinctIds(rs, ReceivableId) && SortedDesc(rs, ReceivableKey(stamp))
    && DistinctIds(ps, PayableId) && SortedDesc(ps, PayableKey(stamp))
  }

  class Store {
    var transactions: seq<Transaction>
    var categories: seq<Category>
    var settings: Settings
    var receivables: seq<Receivable>
    var payables: seq<Payable>
    /** `new Date(date).getTime()`, the key every date sort compares. */
    const stamp: string -> int

    ghost predicate Valid()
      reads this
    {
      WellFormed(transactions, categories, receivables, payables, stamp)
    }

    /** The provider's start: each collection is what storage holds, or
        its default (no transactions, the default categories, currency
        SAR with the system's dark-mode preference and no spending limit,
        no receivables, no payables). Storage holds lists this store wrote. */
    constructor (stored: Stored, stamp: string -> int, prefersDark: bool)
      requires WellFormed(stored.transactions.GetOr([]), stored.categories.GetOr(DefaultCategories()),
                          stored.receivables.GetOr([]), stored.payables.GetOr([]), stamp)
      ensures transactions == stored.transactions.GetOr([])
      ensures categories == stored.categories.GetOr(DefaultCategories())
      ensures settings == stored.settings.GetOr(DefaultSettings(prefersDark))
      ensures receivables == stored.receivables.GetOr([])
      ensures payables == stored.payables.GetOr([])
      ensures this.stamp == stamp
      ensures Valid()
    {
      transactions := stored.transactions.GetOr([]);
      categories := stored.categories.GetOr(DefaultCategories());
      settings := stored.settings.GetOr(DefaultSettings(prefersDark));
      receivables := stored.receivables.GetOr([]);
      payables := stored.payables.GetOr([]);
      this.stamp := stamp;
    }

    // -------------------------------------------------------------------
    // transactions
    // -------------------------------------------------------------------

    /** `addTransaction`: the draft gets the fresh id and goes in front of
        the list, which is then re-sorted newest first. */
    method AddTransaction(d: TransactionDraft, id: string)
      requires Valid()
      requires !HasId(transactions, TransactionId, id)
      modifies this
      ensures transactions == AddSorted(NewTransaction(d, id), old(transactions), TransactionKey(stamp))
      ensures multiset(transactions) == multiset(old(transactions)) + multiset{NewTransaction(d, id)}
      ensures categories == old(categories) && settings == old(settings)
      ensures receivables == old(receivables) && payables == old(payables)
      ensures Valid()
    {
      var t := NewTransaction(d, id);
      AddSortedEffect(t, transactions, TransactionKey(stamp));
      AddSortedDistinct(t, transactions, TransactionKey(stamp), TransactionId);
      transactions := AddSorted(t, transactions, TransactionKey(stamp));
    }

    /** `updateTransaction`: the entry with `u`'s id becomes `u` and the list
        is re-sorted; an unknown id leaves the list as it is. */
    method UpdateTransaction(u: Transaction)
      requires Valid()
      modifies this
      ensures transactions == UpdateSorted(old(transactions), TransactionId, u, TransactionKey(stamp))
      ensures !HasId(old(transactions), TransactionId, u.id) ==> transactions == old(transactions)
      ensures categories == old(categories) && settings == old(settings)
      ensures receivables == old(receivables) && payables == old(payables)
      ensures Valid()
    {
      UpdateSortedEffect(transactions, TransactionId, u, TransactionKey(stamp));
      transactions := UpdateSorted(transactions, TransactionId, u, TransactionKey(stamp));
    }

    /** `deleteTransaction`: drops the entry with the id, keeping the order of the rest. */
    method DeleteTransaction(id: string)
      requires Valid()
      modifies this
      ensures transactions == RemoveById(old(transactions), TransactionId, id)
      ensures !HasId(transactions, TransactionId, id)
      ensures categories == old(categories) && settings == old(settings)
      ensures receivables == old(receivables) && payables == old(payables)
      ensures Valid()
    {
      RemoveByIdEffect(transactions, TransactionId, id, TransactionKey(stamp));
      transactions := RemoveById(transactions, TransactionId, id);
    }

    // -------------------------------------------------------------------
    // categories and settings
    // -------------------------------------------------------------------

    /** `addCategory`: appends a category with the name's slug as id unless
        that id is taken. */
    method AddCategory(name: string, icon: string)
      requires Valid()
      modifies this
      ensures categories == AddCategoryTo(old(categories), name, icon)
      ensures HasId(categories, CategoryId, Slug(name))
      ensures transactions == old(transactions) && settings == old(settings)
      ensures receivables == old(receivables) && payables == old(payables)
      ensures Valid()
    {
      AddCategoryEffect(categories, name, icon);
      categories := AddCategoryTo(categories, name, icon);
    }

    /** `updateSettings`: the given fields overwrite the current ones. */
    method UpdateSettings(p: SettingsPatch)
      requires Valid()
      modifies this
      ensures settings == MergeSettings(old(settings), p)
      ensures transactions == old(transactions) && categories == old(categories)
      ensures receivables == old(receivables) && payables == old(payables)
      ensures Valid()
    {
      settings := MergeSettings(settings, p);
    }

    /** `resetData`: empties the three lists and restores the default
        categories and settings. */
    method ResetData(prefersDark: bool)
      modifies this
      ensures transactions == [] && receivables == [] && payables == []
      ensures categories == DefaultCategories()
      ensures settings == DefaultSettings(prefersDark)
      ensures Valid()
    {
      transactions := [];
      categories := DefaultCategories();
      settings := DefaultSettings(prefersDark);
      receivables := [];
      payables := [];
    }

    // -------------------------------------------------------------------
    // receivables
    // -------------------------------------------------------------------

    /** `addReceivable`: a new pending receivable without payments. */
    method AddReceivable(d: DebtDraft, id: string)
      requires Valid()
      requires !HasId(receivables, ReceivableId, id)
      modifies this
      ensures receivables == AddSorted(NewReceivable(d, id), old(receivables), ReceivableKey(stamp))
      ensures multiset(receivables) == multiset(old(receivables)) + multiset{NewReceivable(d, id)}
      ensures transactions == old(transactions) && categories == old(categories)
      ensures settings == old(settings) && payables == old(payables)
      ensures Valid()
    {
      var r := NewReceivable(d, id);
      AddSortedEffect(r, receivables, ReceivableKey(stamp));
      AddSortedDistinct(r, receivables, ReceivableKey(stamp), ReceivableId);
      receivables := AddSorted(r, receivables, ReceivableKey(stamp));
    }

    /** `updateReceivable`: the receivable with `u`'s id becomes `u`,
        whatever its status and payments say. */
    method UpdateReceivable(u: Receivable)
      requires Valid()
      modifies this
      ensures receivables == UpdateSorted(old(receivables), ReceivableId, u, ReceivableKey(stamp))
      ensures !HasId(old(receivables), ReceivableId, u.id) ==> receivables == old(receivables)
      ensures transactions == old(transactions) && categories == old(categories)
      ensures settings == old(settings) && payables == old(payables)
      ensures Valid()
    {
      UpdateSortedEffect(receivables, ReceivableId, u, ReceivableKey(stamp));
      receivables := UpdateSorted(receivables, ReceivableId, u, ReceivableKey(stamp));
    }

    /** `deleteReceivable`. */
    method DeleteReceivable(id: string)
      requires Valid()
      modifies this
      ensures receivables == RemoveById(old(receivables), ReceivableId, id)
      ensures !HasId(receivables, ReceivableId, id)
      ensures transactions == old(transactions) && categories == old(categories)
      ensures settings == old(settings) && payables == old(payables)
      ensures Valid()
    {
      RemoveByIdEffect(receivables, ReceivableId, id, ReceivableKey(stamp));
      receivables := RemoveById(receivables, ReceivableId, id);
    }

    /** `addPayment`: credits the receivable with the id (no re-sort) and, when
        one matched, posts the income transaction under `transactionId`;
        an unknown id changes nothing. */
    method AddPayment(receivableId: string, d: PaymentDraft, paymentId: string, transactionId: string)
      requires Valid()
      requires !HasId(transactions, TransactionId, transactionId)
      modifies this
      ensures receivables == ApplyPayment(old(receivables), receivableId, NewPayment(d, paymentId))
      ensures FindById(old(receivables), ReceivableId, receivableId).None? ==>
        receivables == old(receivables) && transactions == old(transactions)
      ensures FindById(old(receivables), ReceivableId, receivableId).Some? ==>
        transactions == AddSorted(
          NewTransaction(IncomeFromPayment(FindById(old(receivables), ReceivableId, receivableId).value.personName, d),
                         transactionId),
          old(transactions), TransactionKey(stamp))
      ensures categories == old(categories) && settings == old(settings) && payables == old(payables)
      ensures Valid()
    {
      var p := NewPayment(d, paymentId);
      ApplyPaymentEffect(receivables, receivableId, p, stamp);
      var target := FindById(receivables, ReceivableId, receivableId);
      receivables := ApplyPayment(receivables, receivableId, p);
      if target.Some? {
        AddTransaction(IncomeFromPayment(target.value.personName, d), transactionId);
      }
    }

    // -------------------------------------------------------------------
    // payables
    // -------------------------------------------------------------------

    /** `addPayable`: a new due payable without payments. */
    method AddPayable(d: DebtDraft, id: string)
      requires Valid()
      requires !HasId(payables, PayableId, id)
      modifies this
      ensures payables == AddSorted(NewPayable(d, id), old(payables), PayableKey(stamp))
      ensures multiset(payables) == multiset(old(payables)) + multiset{NewPayable(d, id)}
      ensures transactions == old(transactions) && categories == old(categories)
      ensures settings == old(settings) && receivables == old(receivables)
      ensures Valid()
    {
      var q := NewPayable(d, id);
      AddSortedEffect(q, payables, PayableKey(stamp));
      AddSortedDistinct(q, payables, PayableKey(stamp), PayableId);
      payables := AddSorted(q, payables, PayableKey(stamp));
    }

    /** `updatePayable`. */
    method UpdatePayable(u: Payable)
      requires Valid()
      modifies this
      ensures payables == UpdateSorted(old(payables), PayableId, u, PayableKey(stamp))
      ensures !HasId(old(payables), PayableId, u.id) ==> payables == old(payables)
      ensures transactions == old(transactions) && categories == old(categories)
      ensures settings == old(settings) && receivables == old(receivables)
      ensures Valid()
    {
      UpdateSortedEffect(payables, PayableId, u, PayableKey(stamp));
      payables := UpdateSorted(payables, PayableId, u, PayableKey(stamp));
    }

    /** `deletePayable`. */
    method DeletePayable(id: string)
      requires Valid()
      modifies this
      ensures payables == RemoveById(old(payables), PayableId, id)
      ensures !HasId(payables, PayableId, id)
      ensures transactions == old(transactions) && categories == old(categories)
      ensures settings == old(settings) && receivables == old(receivables)
      ensures Valid()
    {
      RemoveByIdEffect(payables, PayableId, id, PayableKey(stamp));
      payables := RemoveById(payables, PayableId, id);
    }

    /** `addPaymentMade`: credits the payable with the id and re-sorts (which,
        no date having changed, keeps the order); when one matched, posts the
        expense transaction in the `other` category. */
    method AddPaymentMade(payableId: string, d: PaymentDraft, paymentId: string, transactionId: string)
      requires Valid()
      requires !HasId(transactions, TransactionId, transactionId)
      modifies this
      ensures payables == SortDesc(ApplyPaymentMade(old(payables), payableId, NewPayment(d, paymentId)), PayableKey(stamp))
      ensures payables == ApplyPaymentMade(old(payables), payableId, NewPayment(d, paymentId))
      ensures FindById(old(payables), PayableId, payableId).None? ==>
        payables == old(payables) && transactions == old(transactions)
      ensures FindById(old(payables), PayableId, payableId).Some? ==>
        transactions == AddSorted(
          NewTransaction(ExpenseFromPayment(FindById(old(payables), PayableId, payableId).value.personName, d,
                                            old(categories)),
                         transactionId),
          old(transactions), TransactionKey(stamp))
      ensures categories == old(categories) && settings == old(settings) && receivables == old(receivables)
      ensures Valid()
    {
      var p := NewPayment(d, paymentId);
      ApplyPaymentMadeEffect(payables, payableId, p, stamp);
      var target := FindById(payables, PayableId, payableId);
      payables := SortDesc(ApplyPaymentMade(payables, payableId, p), PayableKey(stamp));
      if target.Some? {
        AddTransaction(ExpenseFromPayment(target.value.personName, d, categories), transactionId);
      }
    }
  }
}
