/** The pure rules of the ledger store (contexts/AppContext.tsx): the sort
    keys, the totals recomputed on every read, the records the store creates,
    how a payment updates a receivable or payable, the transaction a payment
    posts, the category slug and the settings merge. The store class in
    module AppContext applies these to its five collections. */
module LedgerRules {
  import opened Optional
  import opened Lists
  import opened Text
  import opened LedgerTypes
  import opened Constants

  // ---------------------------------------------------------------------
  // sort keys: `new Date(x.date).getTime()`, with the date parser `stamp`
  // ---------------------------------------------------------------------

  function TransactionKey(stamp: string -> int): Transaction -> int {
    (t: Transaction) => stamp(t.date)
  }

  function ReceivableKey(stamp: string -> int): Receivable -> int {
    (r: Receivable) => stamp(r.date)
  }

  function PayableKey(stamp: string -> int): Payable -> int {
    (p: Payable) => stamp(p.date)
  }

  // ---------------------------------------------------------------------
  // totals
  // ---------------------------------------------------------------------

  /** `t.type === kind`. */
  function IsKind(kind: TransactionType): Transaction -> bool {
    (t: Transaction) => t.kind == kind
  }

  /** What a transaction adds to `totalIncome`. */
  function IncomeShare(t: Transaction): real {
    if t.kind == Income then t.amount else 0.0
  }

  /** What a transaction adds to `totalExpense`: everything that is not income. */
  function ExpenseShare(t: Transaction): real {
    if t.kind == Income then 0.0 else t.amount
  }

  function TotalIncome(ts: seq<Transaction>): real {
    SumBy(ts, IncomeShare)
  }

  function TotalExpense(ts: seq<Transaction>): real {
    SumBy(ts, ExpenseShare)
  }

  function Balance(ts: seq<Transaction>): real {
    TotalIncome(ts) - TotalExpense(ts)
  }

  /** Every transaction counts once, as income or as expense, so the two
      totals together are the sum of all amounts and the balance is income
      minus the rest. */
  lemma {:induction false} IncomeAndExpenseCoverAll(ts: seq<Transaction>)
    ensures TotalIncome(ts) + TotalExpense(ts) == SumBy(ts, TransactionAmount)
    ensures Balance(ts) == SumBy(ts, TransactionAmount) - 2.0 * TotalExpense(ts)
  {
    if ts != [] {
      IncomeAndExpenseCoverAll(ts[..|ts| - 1]);
    }
  }

  /** What a transaction moves the balance by: up for income, down otherwise. */
  function SignedAmount(t: Transaction): real {
    if t.kind == Income then t.amount else -t.amount
  }

  /** How the store's transaction updates move the balance: adding an entry
      moves it by that entry's signed amount, replacing an entry swaps the
      old signed amount for the new one, deleting an entry takes its signed
      amount back out. */
  lemma BalanceAfterTransactionUpdates(ts: seq<Transaction>, t: Transaction, stamp: string -> int)
    requires DistinctIds(ts, TransactionId) && SortedDesc(ts, TransactionKey(stamp))
    ensures Balance(AddSorted(t, ts, TransactionKey(stamp))) == Balance(ts) + SignedAmount(t)
    ensures forall k :: 0 <= k < |ts| && t.id == ts[k].id ==>
      Balance(UpdateSorted(ts, TransactionId, t, TransactionKey(stamp))) == Balance(ts) - SignedAmount(ts[k]) + SignedAmount(t)
    ensures forall k :: 0 <= k < |ts| ==>
      Balance(RemoveById(ts, TransactionId, ts[k].id)) == Balance(ts) - SignedAmount(ts[k])
  {
    var key := TransactionKey(stamp);
    SumAfterAdd(t, ts, key, IncomeShare);
    SumAfterAdd(t, ts, key, ExpenseShare);
    forall k | 0 <= k < |ts| && t.id == ts[k].id
      ensures Balance(UpdateSorted(ts, TransactionId, t, key)) == Balance(ts) - SignedAmount(ts[k]) + SignedAmount(t)
    {
      SumAfterUpdate(ts, TransactionId, t, key, IncomeShare, k);
      SumAfterUpdate(ts, TransactionId, t, key, ExpenseShare, k);
    }
    forall k | 0 <= k < |ts|
      ensures Balance(RemoveById(ts, TransactionId, ts[k].id)) == Balance(ts) - SignedAmount(ts[k])
    {
      SumAfterRemove(ts, TransactionId, IncomeShare, k);
      SumAfterRemove(ts, TransactionId, ExpenseShare, k);
    }
  }

  /** The sum of a payment list (`reduce((sum, p) => sum + p.amount, 0)`). */
  function TotalPaid(ps: seq<Payment>): real {
    SumBy(ps, PaymentAmount)
  }

  /** A pending receivable contributes what is still owed; a received one nothing. */
  function PendingShare(r: Receivable): real {
    if r.status == Pending then r.amount - TotalPaid(r.payments) else 0.0
  }

  function TotalPendingReceivables(rs: seq<Receivable>): real {
    SumBy(rs, PendingShare)
  }

  /** A due payable contributes what is still owed; a paid one nothing. */
  function DueShare(p: Payable): real {
    if p.status == Due then p.amount - TotalPaid(p.paymentsMade) else 0.0
  }

  function TotalDuePayables(ps: seq<Payable>): real {
    SumBy(ps, DueShare)
  }

  // ---------------------------------------------------------------------
  // records the store creates
  // ---------------------------------------------------------------------

  /** `{ ...receivable, id, status: PENDING, payments: [] }`. */
  function NewReceivable(d: DebtDraft, id: string): Receivable {
    Receivable(id, d.personName, d.amount, d.date, d.notes, Pending, [])
  }

  /** `{ ...payable, id, status: DUE, paymentsMade: [] }`. */
  function NewPayable(d: DebtDraft, id: string): Payable {
    Payable(id, d.personName, d.amount, d.date, d.notes, Due, [])
  }

  /** `{ ...transaction, id }`. */
  function NewTransaction(d: TransactionDraft, id: string): Transaction {
    Transaction(id, d.kind, d.amount, d.category, d.date, d.notes)
  }

  /** `{ ...paymentData, id }`. */
  function NewPayment(d: PaymentDraft, id: string): Payment {
    Payment(id, d.amount, d.date, d.notes)
  }

  /** A new receivable (or payable) is pending (due) with nothing paid, so
      adding it raises the outstanding total by its full amount; deleting
      one lowers the total by what it still contributed. */
  lemma OutstandingAfterAddAndDelete(rs: seq<Receivable>, qs: seq<Payable>, d: DebtDraft, id: string,
                                     stamp: string -> int)
    requires SortedDesc(rs, ReceivableKey(stamp)) && SortedDesc(qs, PayableKey(stamp))
    ensures TotalPendingReceivables(AddSorted(NewReceivable(d, id), rs, ReceivableKey(stamp)))
         == TotalPendingReceivables(rs) + d.amount
    ensures TotalDuePayables(AddSorted(NewPayable(d, id), qs, PayableKey(stamp)))
         == TotalDuePayables(qs) + d.amount
    ensures forall k :: 0 <= k < |rs| && DistinctIds(rs, ReceivableId) ==>
      TotalPendingReceivables(RemoveById(rs, ReceivableId, rs[k].id)) == TotalPendingReceivables(rs) - PendingShare(rs[k])
    ensures forall k :: 0 <= k < |qs| && DistinctIds(qs, PayableId) ==>
      TotalDuePayables(RemoveById(qs, PayableId, qs[k].id)) == TotalDuePayables(qs) - DueShare(qs[k])
  {
    SumAfterAdd(NewReceivable(d, id), rs, ReceivableKey(stamp), PendingShare);
    SumAfterAdd(NewPayable(d, id), qs, PayableKey(stamp), DueShare);
    forall k | 0 <= k < |rs| && DistinctIds(rs, ReceivableId)
      ensures TotalPendingReceivables(RemoveById(rs, ReceivableId, rs[k].id)) == TotalPendingReceivables(rs) - PendingShare(rs[k])
    {
      SumAfterRemove(rs, ReceivableId, PendingShare, k);
    }
    forall k | 0 <= k < |qs| && DistinctIds(qs, PayableId)
      ensures TotalDuePayables(RemoveById(qs, PayableId, qs[k].id)) == TotalDuePayables(qs) - DueShare(qs[k])
    {
      SumAfterRemove(qs, PayableId, DueShare, k);
    }
  }

  // ---------------------------------------------------------------------
  // payments against receivables and payables
  // ---------------------------------------------------------------------

  /** Appends `p` and recomputes the status from the new payment total. */
  function CreditReceivable(r: Receivable, p: Payment): Receivable {
    var payments := r.payments + [p];
    r.(payments := payments,
       status := if TotalPaid(payments) >= r.amount then Received else Pending)
  }

  function CreditPayable(q: Payable, p: PaymentMade): Payable {
    var payments := q.paymentsMade + [p];
    q.(paymentsMade := payments,
       status := if TotalPaid(payments) >= q.amount then Paid else Due)
  }

  /** The `prev.map(...)` of `addPayment`: credits every receivable with the id. */
  function ApplyPayment(rs: seq<Receivable>, id: string, p: Payment): (r: seq<Receivable>)
    ensures |r| == |rs|
  {
    seq(|rs|, i requires 0 <= i < |rs| => if rs[i].id == id then CreditReceivable(rs[i], p) else rs[i])
  }

  /** The `prev.map(...)` of `addPaymentMade`, before its re-sort. */
  function ApplyPaymentMade(qs: seq<Payable>, id: string, p: PaymentMade): (r: seq<Payable>)
    ensures |r| == |qs|
  {
    seq(|qs|, i requires 0 <= i < |qs| => if qs[i].id == id then CreditPayable(qs[i], p) else qs[i])
  }

  /** `addPayment` on the receivables: the matching receivable gets `p` at the
      end of its list and the status "received" exactly when its payments
      reach its amount; every other receivable, and the whole list when no
      id matches, is unchanged. Identifiers and dates stay in place, so
      distinct ids and the date order survive. */
  lemma ApplyPaymentEffect(rs: seq<Receivable>, id: string, p: Payment, stamp: string -> int)
    ensures forall i :: 0 <= i < |rs| && rs[i].id != id ==> ApplyPayment(rs, id, p)[i] == rs[i]
    ensures forall i :: 0 <= i < |rs| && rs[i].id == id ==>
      var r := ApplyPayment(rs, id, p)[i];
      && r.payments == rs[i].payments + [p]
      && (r.status == Received <==> TotalPaid(rs[i].payments) + p.amount >= rs[i].amount)
      && r.(payments := rs[i].payments, status := rs[i].status) == rs[i]
    ensures !HasId(rs, ReceivableId, id) ==> ApplyPayment(rs, id, p) == rs
    ensures DistinctIds(rs, ReceivableId) ==> DistinctIds(ApplyPayment(rs, id, p), ReceivableId)
    ensures SortedDesc(rs, ReceivableKey(stamp)) ==> SortedDesc(ApplyPayment(rs, id, p), ReceivableKey(stamp))
  {
    var r := ApplyPayment(rs, id, p);
    forall i | 0 <= i < |rs| && rs[i].id == id
      ensures TotalPaid(r[i].payments) == TotalPaid(rs[i].payments) + p.amount
    {
      assert (rs[i].payments + [p])[..|rs[i].payments|] == rs[i].payments;
    }
    assert forall i :: 0 <= i < |rs| ==> ReceivableKey(stamp)(r[i]) == ReceivableKey(stamp)(rs[i]);
  }

  /** The same for `addPaymentMade` on the payables. No date changes, so on
      a sorted list the re-sort that follows leaves the order as it is. */
  lemma ApplyPaymentMadeEffect(qs: seq<Payable>, id: string, p: PaymentMade, stamp: string -> int)
    ensures forall i :: 0 <= i < |qs| && qs[i].id != id ==> ApplyPaymentMade(qs, id, p)[i] == qs[i]
    ensures forall i :: 0 <= i < |qs| && qs[i].id == id ==>
      var q := ApplyPaymentMade(qs, id, p)[i];
      && q.paymentsMade == qs[i].paymentsMade + [p]
      && (q.status == Paid <==> TotalPaid(qs[i].paymentsMade) + p.amount >= qs[i].amount)
      && q.(paymentsMade := qs[i].paymentsMade, status := qs[i].status) == qs[i]
    ensures !HasId(qs, PayableId, id) ==> ApplyPaymentMade(qs, id, p) == qs
    ensures DistinctIds(qs, PayableId) ==> DistinctIds(ApplyPaymentMade(qs, id, p), PayableId)
    ensures SortedDesc(qs, PayableKey(stamp)) ==>
      SortDesc(ApplyPaymentMade(qs, id, p), PayableKey(stamp)) == ApplyPaymentMade(qs, id, p)
  {
    var r := ApplyPaymentMade(qs, id, p);
    assert forall i :: 0 <= i < |qs| ==> PayableKey(stamp)(r[i]) == PayableKey(stamp)(qs[i]);
    if SortedDesc(qs, PayableKey(stamp)) {
      SortedUnchanged(r, PayableKey(stamp));
    }
    forall i | 0 <= i < |qs| && qs[i].id == id
      ensures TotalPaid(r[i].paymentsMade) == TotalPaid(qs[i].paymentsMade) + p.amount
    {
      assert (qs[i].paymentsMade + [p])[..|qs[i].paymentsMade|] == qs[i].paymentsMade;
    }
  }

  /** A payment of at most what is still owed on a pending receivable lowers
      `totalPendingReceivables` by exactly its amount, whether or not it
      settles the receivable. */
  lemma PaymentLowersPending(rs: seq<Receivable>, k: int, p: Payment)
    requires DistinctIds(rs, ReceivableId) && 0 <= k < |rs|
    requires rs[k].status == Pending
    requires p.amount <= rs[k].amount - TotalPaid(rs[k].payments)
    ensures TotalPendingReceivables(ApplyPayment(rs, rs[k].id, p)) == TotalPendingReceivables(rs) - p.amount
  {
    var credited := CreditReceivable(rs[k], p);
    assert ApplyPayment(rs, rs[k].id, p) == rs[k := credited];
    assert (rs[k].payments + [p])[..|rs[k].payments|] == rs[k].payments;
    SumByUpdate(rs, PendingShare, k, credited);
  }

  /** A non-negative payment on a receivable that is received and fully paid
      leaves `totalPendingReceivables` unchanged. */
  lemma PaymentOnSettledKeepsPending(rs: seq<Receivable>, k: int, p: Payment)
    requires DistinctIds(rs, ReceivableId) && 0 <= k < |rs|
    requires rs[k].status == Received && TotalPaid(rs[k].payments) >= rs[k].amount
    requires p.amount >= 0.0
    ensures TotalPendingReceivables(ApplyPayment(rs, rs[k].id, p)) == TotalPendingReceivables(rs)
  {
    var credited := CreditReceivable(rs[k], p);
    assert ApplyPayment(rs, rs[k].id, p) == rs[k := credited];
    assert (rs[k].payments + [p])[..|rs[k].payments|] == rs[k].payments;
    SumByUpdate(rs, PendingShare, k, credited);
  }

  /** A payment of at most what is still owed on a due payable lowers
      `totalDuePayables` by exactly its amount. */
  lemma PaymentMadeLowersDue(qs: seq<Payable>, k: int, p: PaymentMade)
    requires DistinctIds(qs, PayableId) && 0 <= k < |qs|
    requires qs[k].status == Due
    requires p.amount <= qs[k].amount - TotalPaid(qs[k].paymentsMade)
    ensures TotalDuePayables(ApplyPaymentMade(qs, qs[k].id, p)) == TotalDuePayables(qs) - p.amount
  {
    var credited := CreditPayable(qs[k], p);
    assert ApplyPaymentMade(qs, qs[k].id, p) == qs[k := credited];
    assert (qs[k].paymentsMade + [p])[..|qs[k].paymentsMade|] == qs[k].paymentsMade;
    SumByUpdate(qs, DueShare, k, credited);
  }

  /** Status is recomputed only when a payment is added: the edit screen
      passes the old record with new fields spread over it, so raising the
      amount of a settled receivable leaves it "received" with less paid than
      owed, and the next small payment turns it back to "pending". */
  lemma EditKeepsStaleStatus()
    ensures
      var settled := CreditReceivable(NewReceivable(DebtDraft("Ali", 500.0, "2024-01-01", None), "r1"),
                                      Payment("p1", 500.0, "2024-01-02", None));
      var edited := settled.(amount := 800.0);
      && settled.status == Received
      && edited.status == Received && TotalPaid(edited.payments) < edited.amount
      && CreditReceivable(edited, Payment("p2", 100.0, "2024-01-03", None)).status == Pending
  {
    var p1 := Payment("p1", 500.0, "2024-01-02", None);
    var p2 := Payment("p2", 100.0, "2024-01-03", None);
    assert TotalPaid([p1]) == 500.0 by {
      assert [p1][..0] == [];
    }
    assert TotalPaid([p1, p2]) == 600.0 by {
      assert [p1, p2][..1] == [p1];
    }
    assert [] + [p1] == [p1];
    assert [p1] + [p2] == [p1, p2];
  }

  // ---------------------------------------------------------------------
  // the transaction a payment posts
  // ---------------------------------------------------------------------

  /** The category literal of `addPayment`'s income transaction. */
  const IncomeCategory := Category("income", "Income", "\U{1F4B0}")

  /** The category `addPaymentMade` uses when no category has id `other`. */
  const OtherFallback := Category("other", "Others", "...")

  /** `${prefix}${name}${notes ? ` - ${notes}` : ''}`: an empty note adds nothing. */
  function PaymentNote(prefix: string, name: string, notes: Option<string>): string {
    prefix + name + (if notes.Some? && notes.value != "" then " - " + notes.value else "")
  }

  /** The income transaction `addPayment` posts for a payment from `name`. */
  function IncomeFromPayment(name: string, d: PaymentDraft): TransactionDraft {
    TransactionDraft(Income, d.amount, IncomeCategory, d.date, Some(PaymentNote("Payment from ", name, d.notes)))
  }

  /** `categories.find(c => c.id === 'other') || { id: 'other', ... }`. */
  function OtherCategory(cs: seq<Category>): (c: Category)
    ensures c.id == "other"
    ensures c in cs || c == OtherFallback
    ensures !HasId(cs, CategoryId, "other") ==> c == OtherFallback
    ensures HasId(cs, CategoryId, "other") ==> c == cs[IndexOfId(cs, CategoryId, "other")]
  {
    FindById(cs, CategoryId, "other").GetOr(OtherFallback)
  }

  /** The expense transaction `addPaymentMade` posts for a payment to `name`. */
  function ExpenseFromPayment(name: string, d: PaymentDraft, cs: seq<Category>): TransactionDraft {
    TransactionDraft(Expense, d.amount, OtherCategory(cs), d.date, Some(PaymentNote("Payment to ", name, d.notes)))
  }

  /** The posted transactions carry the payment's amount and date, the
      income or expense kind and category, and the note "Payment from/to
      <name>" with " - <notes>" appended exactly when the notes are not empty. */
  lemma PostedTransactions(name: string, d: PaymentDraft, cs: seq<Category>, id: string)
    ensures
      var t := NewTransaction(IncomeFromPayment(name, d), id);
      && t.id == id && t.kind == Income && t.amount == d.amount && t.date == d.date
      && t.category.id == "income" && IncomeShare(t) == d.amount && ExpenseShare(t) == 0.0
    ensures
      var t := NewTransaction(ExpenseFromPayment(name, d, cs), id);
      && t.id == id && t.kind == Expense && t.amount == d.amount && t.date == d.date
      && t.category.id == "other" && ExpenseShare(t) == d.amount && IncomeShare(t) == 0.0
    ensures d.notes.None? || d.notes == Some("") ==>
      && IncomeFromPayment(name, d).notes == Some("Payment from " + name)
      && ExpenseFromPayment(name, d, cs).notes == Some("Payment to " + name)
    ensures d.notes.Some? && d.notes.value != "" ==>
      && IncomeFromPayment(name, d).notes == Some("Payment from " + name + " - " + d.notes.value)
      && ExpenseFromPayment(name, d, cs).notes == Some("Payment to " + name + " - " + d.notes.value)
  {
    assert "Payment from " + name + "" == "Payment from " + name;
    assert "Payment to " + name + "" == "Payment to " + name;
    if d.notes.Some? {
      var v := d.notes.value;
      assert "Payment from " + name + (" - " + v) == "Payment from " + name + " - " + v;
      assert "Payment to " + name + (" - " + v) == "Payment to " + name + " - " + v;
    }
  }

  /** The default table holds the exact `income` literal of `addPayment`,
      and its `other` entry is the exact fallback of `addPaymentMade`, so with
      the default categories the fallback makes no difference. */
  lemma DefaultsAgreeWithLiterals()
    ensures FindById(DefaultCategories(), CategoryId, "income") == Some(IncomeCategory)
    ensures FindById(DefaultCategories(), CategoryId, "other") == Some(OtherFallback)
    ensures OtherCategory(DefaultCategories()) == OtherFallback
  {
    var cs := DefaultCategories();
    assert cs[9] == IncomeCategory && cs[10] == OtherFallback;
  }

  // ---------------------------------------------------------------------
  // categories
  // ---------------------------------------------------------------------

  /** `name.toLowerCase().replace(' ', '-')`: only the first space becomes '-'. */
  function Slug(name: string): string {
    ReplaceFirst(ToLower(name), ' ', '-')
  }

  /** The slug has the name's length; at the first space of the name it has
      '-', everywhere else the lower-cased character of the name (later
      spaces included). */
  lemma SlugReplacesFirstSpace(name: string, k: int)
    requires 0 <= k < |name| && name[k] == ' ' && ' ' !in name[..k]
    ensures |Slug(name)| == |name|
    ensures Slug(name) == ToLower(name)[..k] + "-" + ToLower(name)[k + 1..]
  {
    var low := ToLower(name);
    assert low[k] == ' ';
    assert ' ' !in low[..k] by {
      forall i | 0 <= i < k ensures low[i] != ' ' {
        assert name[i] in name[..k];
      }
    }
    ReplaceFirstAt(low, ' ', '-', k);
  }

  /** A name without a space is simply lower-cased. */
  lemma SlugWithoutSpace(name: string)
    requires ' ' !in name
    ensures Slug(name) == ToLower(name)
  {
    var low := ToLower(name);
    assert ' ' !in low by {
      forall i | 0 <= i < |low| ensures low[i] != ' ' {
        assert name[i] in name;
      }
    }
    ReplaceFirstAbsent(low, ' ', '-');
  }

  /** `addCategory` on the list: appends the new category unless a category
      with its slug already exists. */
  function AddCategoryTo(cs: seq<Category>, name: string, icon: string): seq<Category> {
    var c := Category(Slug(name), name, icon);
    if FindById(cs, CategoryId, c.id).Some? then cs else cs + [c]
  }

  /** Adding a category keeps category ids distinct; afterwards its slug is
      present; the list either is unchanged (slug taken) or grew by the new
      category at the end. */
  lemma AddCategoryEffect(cs: seq<Category>, name: string, icon: string)
    requires DistinctIds(cs, CategoryId)
    ensures DistinctIds(AddCategoryTo(cs, name, icon), CategoryId)
    ensures HasId(AddCategoryTo(cs, name, icon), CategoryId, Slug(name))
    ensures HasId(cs, CategoryId, Slug(name)) ==> AddCategoryTo(cs, name, icon) == cs
    ensures !HasId(cs, CategoryId, Slug(name)) ==>
      AddCategoryTo(cs, name, icon) == cs + [Category(Slug(name), name, icon)]
  {
    var r := AddCategoryTo(cs, name, icon);
    if !HasId(cs, CategoryId, Slug(name)) {
      assert CategoryId(r[|cs|]) == Slug(name);
    }
  }

  /** Adding a category whose slug exists changes nothing, so adding the same
      name twice is adding it once (whatever icon the second call carries). */
  lemma AddCategoryIdempotent(cs: seq<Category>, name: string, icon: string, icon2: string)
    ensures AddCategoryTo(AddCategoryTo(cs, name, icon), name, icon2) == AddCategoryTo(cs, name, icon)
  {
    var once := AddCategoryTo(cs, name, icon);
    if FindById(cs, CategoryId, Slug(name)).None? {
      assert CategoryId(once[|cs|]) == Slug(name);
    }
  }

  // ---------------------------------------------------------------------
  // settings
  // ---------------------------------------------------------------------

  /** `Partial<Settings>`: each field may be given or not; `spendingLimit`
      may be given as null (`Some(None)`). */
  datatype SettingsPatch = SettingsPatch(
    currency: Option<string>,
    darkMode: Option<bool>,
    spendingLimit: Option<Option<real>>)

  /** `{ ...prev, ...patch }`. */
  function MergeSettings(s: Settings, p: SettingsPatch): Settings {
    Settings(
      p.currency.GetOr(s.currency),
      p.darkMode.GetOr(s.darkMode),
      p.spendingLimit.GetOr(s.spendingLimit))
  }

  /** A patch that gives a field fixes it; fields it does not give are kept;
      applying a patch twice is applying it once; two patches in a row are
      one patch in which the later one wins. */
  lemma MergeSettingsLaws(s: Settings, p: SettingsPatch, q: SettingsPatch)
    ensures p.currency.Some? ==> MergeSettings(s, p).currency == p.currency.value
    ensures p.currency.None? ==> MergeSettings(s, p).currency == s.currency
    ensures p.darkMode.Some? ==> MergeSettings(s, p).darkMode == p.darkMode.value
    ensures p.darkMode.None? ==> MergeSettings(s, p).darkMode == s.darkMode
    ensures p.spendingLimit.Some? ==> MergeSettings(s, p).spendingLimit == p.spendingLimit.value
    ensures p.spendingLimit.None? ==> MergeSettings(s, p).spendingLimit == s.spendingLimit
    ensures MergeSettings(s, SettingsPatch(None, None, None)) == s
    ensures MergeSettings(MergeSettings(s, p), p) == MergeSettings(s, p)
    ensures MergeSettings(MergeSettings(s, p), q) ==
      MergeSettings(s, SettingsPatch(
        if q.currency.Some? then q.currency else p.currency,
        if q.darkMode.Some? then q.darkMode else p.darkMode,
        if q.spendingLimit.Some? then q.spendingLimit else p.spendingLimit))
  {
  }

  /** The settings of a first start and of `resetData`. */
  function DefaultSettings(prefersDark: bool): Settings {
    Settings("SAR", prefersDark, None)
  }
}
