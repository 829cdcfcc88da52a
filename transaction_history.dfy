/** The transaction history (components/transactions/TransactionHistory.tsx):
    the type filter and the search over the store's transactions, and the
    grouping of what remains into one bucket per day. */
module TransactionHistory {
  import opened Optional
  import opened Lists
  import opened Text
  import opened LedgerTypes
  import opened LedgerRules

  // ---------------------------------------------------------------------
  // filtering
  // ---------------------------------------------------------------------

  /** The type buttons: "all" keeps everything, otherwise the stored type
      text must equal the button's value. */
  function KeepsType(filterType: string): Transaction -> bool {
    (t: Transaction) => filterType == "all" || TypeText(t.kind) == filterType
  }

  /** The search: the lower-cased term inside the lower-cased category name,
      inside the amount's text (`amountText` is `toString` on a number), or
      inside the lower-cased notes when there are notes that are not empty. */
  function MatchesSearch(term: string, amountText: real -> string): Transaction -> bool {
    (t: Transaction) =>
      var q := ToLower(term);
      || Contains(ToLower(t.category.name), q)
      || Contains(amountText(t.amount), q)
      || (t.notes.Some? && t.notes.value != "" && Contains(ToLower(t.notes.value), q))
  }

  /** `filteredTransactions`: the type filter, then the search. */
  function Filtered(ts: seq<Transaction>, filterType: string, term: string, amountText: real -> string): seq<Transaction> {
    Filter(Filter(ts, KeepsType(filterType)), MatchesSearch(term, amountText))
  }

  /** The list shown keeps exactly the transactions that pass both tests,
      in the store's order. */
  lemma FilteredSelects(ts: seq<Transaction>, filterType: string, term: string, amountText: real -> string)
    ensures Filtered(ts, filterType, term, amountText) ==
      Filter(ts, Both(KeepsType(filterType), MatchesSearch(term, amountText)))
    ensures forall t :: t in Filtered(ts, filterType, term, amountText) <==>
      t in ts && KeepsType(filterType)(t) && MatchesSearch(term, amountText)(t)
    ensures IsSubsequence(Filtered(ts, filterType, term, amountText), ts)
  {
    FilterCompose(ts, KeepsType(filterType), MatchesSearch(term, amountText));
    FilterIsSubsequence(ts, Both(KeepsType(filterType), MatchesSearch(term, amountText)));
  }

  /** "all" keeps every transaction, "income" and "expense" keep exactly
      the transactions of that type, and any other value keeps none. */
  lemma TypeFilterChoices(ts: seq<Transaction>, other: string)
    requires other != "all" && other != "income" && other != "expense"
    ensures Filter(ts, KeepsType("all")) == ts
    ensures Filter(ts, KeepsType("income")) == Filter(ts, IsKind(Income))
    ensures Filter(ts, KeepsType("expense")) == Filter(ts, IsKind(Expense))
    ensures Filter(ts, KeepsType(other)) == []
  {
    FilterKeepsAll(ts, KeepsType("all"));
    FilterCongruent(ts, KeepsType("income"), IsKind(Income));
    FilterCongruent(ts, KeepsType("expense"), IsKind(Expense));
    FilterKeepsNone(ts, KeepsType(other));
  }

  /** An empty search term keeps everything. */
  lemma EmptySearchKeepsAll(ts: seq<Transaction>, amountText: real -> string)
    ensures Filter(ts, MatchesSearch("", amountText)) == ts
  {
    forall t | t in ts ensures MatchesSearch("", amountText)(t) {
      assert ToLower("") == "";
      assert Contains(ToLower(t.category.name), "") by {
        assert IsPrefix("", ToLower(t.category.name));
      }
    }
    FilterKeepsAll(ts, MatchesSearch("", amountText));
  }

  /** The search ignores the case of the term. */
  lemma SearchIgnoresCase(term: string, amountText: real -> string, t: Transaction)
    ensures MatchesSearch(term, amountText)(t) == MatchesSearch(ToLower(term), amountText)(t)
  {
    ToLowerIdempotent(term);
  }

  // ---------------------------------------------------------------------
  // grouping by day
  // ---------------------------------------------------------------------

  /** The day key of each transaction; `dayKey` stands for
      `new Date(date).toLocaleDateString('en-CA')`. */
  function DayKeys(ts: seq<Transaction>, dayKey: string -> string): (r: seq<string>)
    ensures |r| == |ts|
  {
    seq(|ts|, i requires 0 <= i < |ts| => dayKey(ts[i].date))
  }

  function OnDay(dayKey: string -> string, day: string): Transaction -> bool {
    (t: Transaction) => dayKey(t.date) == day
  }

  /** The sizes of the buckets named in `days`, added up. */
  function GroupSizes(days: seq<string>, ts: seq<Transaction>, dayKey: string -> string): int {
    if days == [] then 0
    else GroupSizes(days[..|days| - 1], ts, dayKey) + |Filter(ts, OnDay(dayKey, days[|days| - 1]))|
  }

  /** One more transaction adds one to the bucket of its day, once for every
      time that day is named. */
  lemma {:induction false} GroupSizesStep(days: seq<string>, ts: seq<Transaction>, t: Transaction, dayKey: string -> string)
    ensures GroupSizes(days, ts + [t], dayKey) == GroupSizes(days, ts, dayKey) + multiset(days)[dayKey(t.date)]
  {
    if days == [] {
    } else {
      var init, d := days[..|days| - 1], days[|days| - 1];
      GroupSizesStep(init, ts, t, dayKey);
      assert (ts + [t])[..|ts|] == ts;
      assert days == init + [d];
    }
  }

  lemma {:induction false} GroupSizesEmpty(days: seq<string>, dayKey: string -> string)
    ensures GroupSizes(days, [], dayKey) == 0
  {
    if days != [] {
      GroupSizesEmpty(days[..|days| - 1], dayKey);
    }
  }

  /** A value that occurs in a list without repetitions occurs once. */
  lemma {:induction false} CountInDistinct(s: seq<string>, x: string)
    requires forall i, j :: 0 <= i < j < |s| ==> s[i] != s[j]
    requires x in s
    ensures multiset(s)[x] == 1
  {
    var init, last := s[..|s| - 1], s[|s| - 1];
    assert s == init + [last];
    if last == x {
      assert x !in init by {
        forall i | 0 <= i < |init| ensures init[i] != x {
          assert init[i] == s[i];
        }
      }
    } else {
      CountInDistinct(init, x);
    }
  }

  /** Buckets named by distinct days that cover every transaction's day
      hold, between them, every transaction exactly once. */
  lemma {:induction false} GroupSizesCover(days: seq<string>, ts: seq<Transaction>, dayKey: string -> string)
    requires forall i, j :: 0 <= i < j < |days| ==> days[i] != days[j]
    requires forall t :: t in ts ==> dayKey(t.date) in days
    ensures GroupSizes(days, ts, dayKey) == |ts|
  {
    if ts == [] {
      GroupSizesEmpty(days, dayKey);
    } else {
      var init, t := ts[..|ts| - 1], ts[|ts| - 1];
      assert ts == init + [t];
      GroupSizesCover(days, init, dayKey);
      GroupSizesStep(days, init, t, dayKey);
      CountInDistinct(days, dayKey(t.date));
    }
  }

  /** A day that no transaction of `ts` falls on has an empty bucket. */
  lemma NoBucketForAbsentDay(ts: seq<Transaction>, dayKey: string -> string, day: string)
    requires day !in DayKeys(ts, dayKey)
    ensures Filter(ts, OnDay(dayKey, day)) == []
  {
    forall t | t in ts ensures !OnDay(dayKey, day)(t) {
      var j :| 0 <= j < |ts| && ts[j] == t;
      assert DayKeys(ts, dayKey)[j] == dayKey(t.date);
    }
    FilterKeepsNone(ts, OnDay(dayKey, day));
  }

  /** `groups` holds, under the keys `days` (in first-occurrence order),
      the transactions of `ts` of each day, in their order. */
  ghost predicate Grouped(ts: seq<Transaction>, dayKey: string -> string,
                          days: seq<string>, groups: map<string, seq<Transaction>>)
  {
    && days == Dedupe(DayKeys(ts, dayKey))
    && (forall d :: d in groups <==> d in days)
    && (forall d :: d in groups ==> groups[d] == Filter(ts, OnDay(dayKey, d)))
  }

  /** The dictionary's keys in insertion order, and the dictionary. */
  datatype Grouping = Grouping(days: seq<string>, groups: map<string, seq<Transaction>>)

  /** One step of the `reduce`: create the day's bucket if it is missing,
      then push the transaction onto it. */
  function Push(g: Grouping, t: Transaction, dayKey: string -> string): Grouping {
    var key := dayKey(t.date);
    var base := if key in g.groups then g else Grouping(g.days + [key], g.groups[key := []]);
    Grouping(base.days, base.groups[key := base.groups[key] + [t]])
  }

  /** The `reduce` from an empty dictionary. */
  function GroupFold(ts: seq<Transaction>, dayKey: string -> string): Grouping {
    if ts == [] then Grouping([], map[])
    else Push(GroupFold(ts[..|ts| - 1], dayKey), ts[|ts| - 1], dayKey)
  }

  /** Pushing one more transaction keeps the grouping exact. */
  lemma GroupedStep(ts: seq<Transaction>, t: Transaction, dayKey: string -> string, g: Grouping)
    requires Grouped(ts, dayKey, g.days, g.groups)
    ensures Grouped(ts + [t], dayKey, Push(g, t, dayKey).days, Push(g, t, dayKey).groups)
  {
    PushDays(ts, t, dayKey, g);
    PushBuckets(ts, t, dayKey, g);
  }

  /** A new day is appended to the key order; a known day is not. */
  lemma PushDays(ts: seq<Transaction>, t: Transaction, dayKey: string -> string, g: Grouping)
    requires g.days == Dedupe(DayKeys(ts, dayKey))
    requires forall d :: d in g.groups <==> d in g.days
    ensures Push(g, t, dayKey).days == Dedupe(DayKeys(ts + [t], dayKey))
    ensures forall d :: d in Push(g, t, dayKey).groups <==> d in Push(g, t, dayKey).days
  {
    var key := dayKey(t.date);
    assert DayKeys(ts + [t], dayKey) == DayKeys(ts, dayKey) + [key];
    DedupeStep(DayKeys(ts, dayKey), key);
  }

  /** Every bucket stays the day's transactions, in order. */
  lemma PushBuckets(ts: seq<Transaction>, t: Transaction, dayKey: string -> string, g: Grouping)
    requires g.days == Dedupe(DayKeys(ts, dayKey))
    requires forall d :: d in g.groups <==> d in g.days
    requires forall d :: d in g.groups ==> g.groups[d] == Filter(ts, OnDay(dayKey, d))
    ensures forall d :: d in Push(g, t, dayKey).groups ==>
      Push(g, t, dayKey).groups[d] == Filter(ts + [t], OnDay(dayKey, d))
  {
    var key := dayKey(t.date);
    var base := if key in g.groups then g else Grouping(g.days + [key], g.groups[key := []]);
    var after := Push(g, t, dayKey);
    assert base.groups[key] == Filter(ts, OnDay(dayKey, key)) by {
      if key !in g.groups {
        NoBucketForAbsentDay(ts, dayKey, key);
      }
    }
    forall d | d in after.groups ensures after.groups[d] == Filter(ts + [t], OnDay(dayKey, d)) {
      BucketStep(ts, t, dayKey, d);
    }
  }

  /** The fold groups exactly: every day once, in first-occurrence order,
      with the transactions of that day in their order. */
  lemma {:induction false} GroupFoldGroups(ts: seq<Transaction>, dayKey: string -> string)
    ensures Grouped(ts, dayKey, GroupFold(ts, dayKey).days, GroupFold(ts, dayKey).groups)
  {
    if ts == [] {
      assert DayKeys(ts, dayKey) == [];
    } else {
      var init := ts[..|ts| - 1];
      GroupFoldGroups(init, dayKey);
      GroupedStep(init, ts[|ts| - 1], dayKey, GroupFold(init, dayKey));
      assert init + [ts[|ts| - 1]] == ts;
    }
  }

  /** The bucket of a day, one transaction later. */
  lemma BucketStep(ts: seq<Transaction>, t: Transaction, dayKey: string -> string, d: string)
    ensures Filter(ts + [t], OnDay(dayKey, d)) ==
      Filter(ts, OnDay(dayKey, d)) + (if dayKey(t.date) == d then [t] else [])
  {
    assert (ts + [t])[..|ts|] == ts;
  }

  /** `groupTransactionsByDate`: a dictionary from day to the transactions of
      that day, filled by pushing each transaction onto its day's list; `days`
      is the dictionary's key order, the order of first insertion. */
  method GroupByDay(ts: seq<Transaction>, dayKey: string -> string)
    returns (days: seq<string>, groups: map<string, seq<Transaction>>)
    ensures Grouping(days, groups) == GroupFold(ts, dayKey)
    ensures days == Dedupe(DayKeys(ts, dayKey))
    ensures forall d :: d in groups <==> d in days
    ensures forall d :: d in groups ==> groups[d] == Filter(ts, OnDay(dayKey, d))
    ensures forall t :: t in ts ==> dayKey(t.date) in groups && t in groups[dayKey(t.date)]
    ensures GroupSizes(days, ts, dayKey) == |ts|
  {
    days := [];
    groups := map[];
    var i := 0;
    while i < |ts|
      invariant 0 <= i <= |ts|
      invariant Grouping(days, groups) == GroupFold(ts[..i], dayKey)
    {
      var t := ts[i];
      var key := dayKey(t.date);
      if key !in groups {
        groups := groups[key := []];
        days := days + [key];
      }
      groups := groups[key := groups[key] + [t]];
      assert ts[..i + 1][..i] == ts[..i];
      i := i + 1;
    }
    assert ts[..|ts|] == ts;
    GroupFoldGroups(ts, dayKey);
    GroupingCovers(ts, dayKey, days, groups);
  }

  /** A grouping holds every transaction in the bucket of its day, and its
      buckets' sizes add up to the number of transactions. */
  lemma GroupingCovers(ts: seq<Transaction>, dayKey: string -> string,
                       days: seq<string>, groups: map<string, seq<Transaction>>)
    requires Grouped(ts, dayKey, days, groups)
    ensures forall t :: t in ts ==> dayKey(t.date) in groups && t in groups[dayKey(t.date)]
    ensures GroupSizes(days, ts, dayKey) == |ts|
  {
    forall t | t in ts ensures dayKey(t.date) in groups && t in groups[dayKey(t.date)] {
      var j :| 0 <= j < |ts| && ts[j] == t;
      assert DayKeys(ts, dayKey)[j] == dayKey(t.date);
    }
    GroupSizesCover(days, ts, dayKey);
  }
}
