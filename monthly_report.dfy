/** The monthly report (components/reports/MonthlyReport.tsx): the chosen
    month's transactions, their per-category expense breakdown and the
    month's income, expense and savings. */
module MonthlyReport {
  import opened Lists
  import opened Text
  import opened LedgerTypes
  import opened LedgerRules

  /** `t.date.startsWith(month)` for a month written `YYYY-MM`. */
  function InMonth(month: string): Transaction -> bool {
    (t: Transaction) => IsPrefix(month, t.date)
  }

  /** The month's transactions, in store order. */
  function MonthTransactions(ts: seq<Transaction>, month: string): seq<Transaction> {
    Filter(ts, InMonth(month))
  }

  /** The month's expenses, the input of the breakdown. */
  function MonthExpenses(ts: seq<Transaction>, month: string): seq<Transaction> {
    Filter(MonthTransactions(ts, month), IsKind(Expense))
  }

  function MonthIncome(ts: seq<Transaction>, month: string): real {
    SumBy(Filter(MonthTransactions(ts, month), IsKind(Income)), TransactionAmount)
  }

  function MonthExpense(ts: seq<Transaction>, month: string): real {
    SumBy(MonthExpenses(ts, month), TransactionAmount)
  }

  function Savings(ts: seq<Transaction>, month: string): real {
    MonthIncome(ts, month) - MonthExpense(ts, month)
  }

  /** The month view keeps exactly the transactions dated in the month, in
      the order the store holds them. */
  lemma MonthViewSelects(ts: seq<Transaction>, month: string)
    ensures forall t :: t in MonthTransactions(ts, month) <==> t in ts && IsPrefix(month, t.date)
    ensures IsSubsequence(MonthTransactions(ts, month), ts)
  {
    FilterIsSubsequence(ts, InMonth(month));
  }

  /** The report's own filter-and-sum totals are the store's income/expense
      fold applied to the month's transactions (every transaction is income
      or expense), so savings are the month's balance, and over a list that
      lies inside the month they are the store's balance. */
  lemma ReportAgreesWithStore(ts: seq<Transaction>, month: string)
    ensures MonthIncome(ts, month) == TotalIncome(MonthTransactions(ts, month))
    ensures MonthExpense(ts, month) == TotalExpense(MonthTransactions(ts, month))
    ensures Savings(ts, month) == Balance(MonthTransactions(ts, month))
    ensures (forall t :: t in ts ==> IsPrefix(month, t.date)) ==> Savings(ts, month) == Balance(ts)
  {
    var ms := MonthTransactions(ts, month);
    SumByFilter(ms, IsKind(Income), TransactionAmount, IncomeShare);
    SumByFilter(ms, IsKind(Expense), TransactionAmount, ExpenseShare);
    if forall t :: t in ts ==> IsPrefix(month, t.date) {
      FilterKeepsAll(ts, InMonth(month));
    }
  }

  // ---------------------------------------------------------------------
  // the expense breakdown
  // ---------------------------------------------------------------------

  /** One pie slice: a category name and the amount spent on it. */
  datatype Slice = Slice(name: string, value: real)

  function SliceName(s: Slice): string { s.name }
  function SliceValue(s: Slice): real { s.value }

  function SliceNames(slices: seq<Slice>): (r: seq<string>)
    ensures |r| == |slices|
  {
    seq(|slices|, i requires 0 <= i < |slices| => slices[i].name)
  }

  function CategoryNames(es: seq<Transaction>): (r: seq<string>)
    ensures |r| == |es|
  {
    seq(|es|, i requires 0 <= i < |es| => es[i].category.name)
  }

  /** What a transaction adds to the slice called `name`. */
  function AmountIn(name: string): Transaction -> real {
    (t: Transaction) => if t.category.name == name then t.amount else 0.0
  }

  /** One step of the `reduce`: add to the slice with the category's name,
      or push a new slice when there is none. */
  function AddToBreakdown(slices: seq<Slice>, t: Transaction): seq<Slice> {
    var k := IndexOfId(slices, SliceName, t.category.name);
    if k < |slices| then slices[k := Slice(slices[k].name, slices[k].value + t.amount)]
    else slices + [Slice(t.category.name, t.amount)]
  }

  /** The `reduce` over the expenses, from an empty list. */
  function Breakdown(es: seq<Transaction>): seq<Slice> {
    if es == [] then [] else AddToBreakdown(Breakdown(es[..|es| - 1]), es[|es| - 1])
  }

  /** A name that no transaction carries gathers nothing. */
  lemma {:induction false} AmountInAbsent(es: seq<Transaction>, name: string)
    requires name !in CategoryNames(es)
    ensures SumBy(es, AmountIn(name)) == 0.0
  {
    if es != [] {
      var init := es[..|es| - 1];
      assert CategoryNames(init) == CategoryNames(es)[..|es| - 1];
      AmountInAbsent(init, name);
      assert CategoryNames(es)[|es| - 1] == es[|es| - 1].category.name;
    }
  }

  /** The breakdown has one slice per category name of the expenses, in the
      order the names first occur, so no name appears twice. */
  lemma {:induction false} BreakdownNames(es: seq<Transaction>)
    ensures SliceNames(Breakdown(es)) == Dedupe(CategoryNames(es))
  {
    if es != [] {
      var init, t := es[..|es| - 1], es[|es| - 1];
      var name := t.category.name;
      BreakdownNames(init);
      var b := Breakdown(init);
      var k := IndexOfId(b, SliceName, name);
      assert CategoryNames(es)[..|es| - 1] == CategoryNames(init);
      assert CategoryNames(es)[|es| - 1] == name;
      if k < |b| {
        assert SliceNames(b)[k] == name;
        assert SliceNames(Breakdown(es)) == SliceNames(b);
      } else {
        assert name !in SliceNames(b) by {
          forall i | 0 <= i < |b| ensures SliceNames(b)[i] != name {
            assert SliceNames(b)[i] == b[i].name;
          }
        }
        assert SliceNames(Breakdown(es)) == SliceNames(b) + [name];
      }
    }
  }

  /** Slices whose names are pairwise distinct. */
  lemma DistinctSliceNames(b: seq<Slice>)
    requires forall i, j :: 0 <= i < j < |SliceNames(b)| ==> SliceNames(b)[i] != SliceNames(b)[j]
    ensures forall i, j :: 0 <= i < j < |b| ==> b[i].name != b[j].name
  {
    forall i, j | 0 <= i < j < |b| ensures b[i].name != b[j].name {
      assert SliceNames(b)[i] == b[i].name && SliceNames(b)[j] == b[j].name;
    }
  }

  /** Each slice holds the sum of the expenses that carry its name, so
      income, which never reaches the breakdown, adds nothing to any slice. */
  lemma {:induction false} BreakdownValues(es: seq<Transaction>)
    ensures forall i :: 0 <= i < |Breakdown(es)| ==>
      Breakdown(es)[i].value == SumBy(es, AmountIn(Breakdown(es)[i].name))
  {
    if es != [] {
      var init, t := es[..|es| - 1], es[|es| - 1];
      var name := t.category.name;
      BreakdownValues(init);
      BreakdownNames(init);
      var b := Breakdown(init);
      DistinctSliceNames(b);
      var k := IndexOfId(b, SliceName, name);
      if k == |b| {
        assert name !in CategoryNames(init) by {
          assert name !in SliceNames(b) by {
            forall i | 0 <= i < |b| ensures SliceNames(b)[i] != name {
              assert SliceNames(b)[i] == b[i].name;
            }
          }
        }
        AmountInAbsent(init, name);
      }
    }
  }

  /** One step of the reduce adds the transaction's amount to the total. */
  lemma AddToBreakdownTotal(b: seq<Slice>, t: Transaction)
    ensures SumBy(AddToBreakdown(b, t), SliceValue) == SumBy(b, SliceValue) + t.amount
  {
    var k := IndexOfId(b, SliceName, t.category.name);
    if k < |b| {
      SumByUpdate(b, SliceValue, k, Slice(b[k].name, b[k].value + t.amount));
    } else {
      assert (b + [Slice(t.category.name, t.amount)])[..|b|] == b;
    }
  }

  /** The slices add up to all the expenses. */
  lemma {:induction false} BreakdownTotal(es: seq<Transaction>)
    ensures SumBy(Breakdown(es), SliceValue) == SumBy(es, TransactionAmount)
  {
    if es != [] {
      BreakdownTotal(es[..|es| - 1]);
      AddToBreakdownTotal(Breakdown(es[..|es| - 1]), es[|es| - 1]);
    }
  }

  /** `acc.find(item => item.name === name)`, as the position of the first
      slice with that name, or the list's length when there is none. */
  method FindSlice(slices: seq<Slice>, name: string) returns (k: nat)
    ensures k == IndexOfId(slices, SliceName, name)
    ensures k < |slices| ==> slices[k].name == name
    ensures forall j :: 0 <= j < k && j < |slices| ==> slices[j].name != name
  {
    k := 0;
    while k < |slices| && slices[k].name != name
      invariant 0 <= k <= |slices|
      invariant forall j :: 0 <= j < k ==> slices[j].name != name
    {
      k := k + 1;
    }
  }

  /** The `expenseData` reduce, with the in-place `existing.value += t.amount`
      written as an update of the slice list. */
  method ExpenseData(ts: seq<Transaction>, month: string) returns (slices: seq<Slice>)
    ensures slices == Breakdown(MonthExpenses(ts, month))
  {
    var es := MonthExpenses(ts, month);
    slices := [];
    var i := 0;
    while i < |es|
      invariant 0 <= i <= |es|
      invariant slices == Breakdown(es[..i])
    {
      var t := es[i];
      var k := FindSlice(slices, t.category.name);
      if k < |slices| {
        slices := slices[k := Slice(slices[k].name, slices[k].value + t.amount)];
      } else {
        slices := slices + [Slice(t.category.name, t.amount)];
      }
      assert es[..i + 1][..i] == es[..i];
      i := i + 1;
    }
    assert es[..|es|] == es;
  }

  /** The month's expense breakdown: one slice per expense category name of
      the month, in first-occurrence order; each slice the month's spending
      under that name; the slices together the month's total expense. */
  lemma ExpenseDataMeaning(ts: seq<Transaction>, month: string)
    ensures SliceNames(Breakdown(MonthExpenses(ts, month))) == Dedupe(CategoryNames(MonthExpenses(ts, month)))
    ensures forall i :: 0 <= i < |Breakdown(MonthExpenses(ts, month))| ==>
      Breakdown(MonthExpenses(ts, month))[i].value ==
        SumBy(MonthExpenses(ts, month), AmountIn(Breakdown(MonthExpenses(ts, month))[i].name))
    ensures SumBy(Breakdown(MonthExpenses(ts, month)), SliceValue) == MonthExpense(ts, month)
  {
    var es := MonthExpenses(ts, month);
    BreakdownNames(es);
    BreakdownValues(es);
    BreakdownTotal(es);
  }
}
