/** The list operations the ledger is built from: JavaScript's `filter`,
    `find`, `reduce` (as a sum), `reverse` and the comparator `sort`, stated
    once, generically, with the facts the ledger's proofs need about them. */
module Lists {
  import opened Optional

  // ---------------------------------------------------------------------
  // filter
  // ---------------------------------------------------------------------

  /** `s.filter(p)`: the elements of `s` that satisfy `p`, in their order. */
  function Filter<T(!new)>(s: seq<T>, p: T -> bool): (r: seq<T>)
    ensures |r| <= |s|
    ensures forall x :: x in r <==> x in s && p(x)
  {
    if s == [] then []
    else
      var init, last := s[..|s| - 1], s[|s| - 1];
      assert s == init + [last];
      if p(last) then Filter(init, p) + [last] else Filter(init, p)
  }

  /** The conjunction of two element tests. */
  function Both<T(!new)>(p: T -> bool, q: T -> bool): T -> bool {
    x => p(x) && q(x)
  }

  /** Filtering twice is filtering once by both tests. */
  lemma {:induction false} FilterCompose<T(!new)>(s: seq<T>, p: T -> bool, q: T -> bool)
    ensures Filter(Filter(s, p), q) == Filter(s, Both(p, q))
  {
    if s != [] {
      var init, last := s[..|s| - 1], s[|s| - 1];
      FilterCompose(init, p, q);
      if p(last) {
        var f := Filter(init, p) + [last];
        assert f[..|f| - 1] == Filter(init, p);
      }
    }
  }

  /** A test that every element passes keeps the whole list. */
  lemma {:induction false} FilterKeepsAll<T(!new)>(s: seq<T>, p: T -> bool)
    requires forall x :: x in s ==> p(x)
    ensures Filter(s, p) == s
  {
    if s != [] {
      FilterKeepsAll(s[..|s| - 1], p);
      assert s == s[..|s| - 1] + [s[|s| - 1]];
    }
  }

  /** A test that no element passes keeps nothing. */
  lemma {:induction false} FilterKeepsNone<T(!new)>(s: seq<T>, p: T -> bool)
    requires forall x :: x in s ==> !p(x)
    ensures Filter(s, p) == []
  {
    if s != [] {
      FilterKeepsNone(s[..|s| - 1], p);
    }
  }

  /** Two tests that agree on every element keep the same elements. */
  lemma {:induction false} FilterCongruent<T(!new)>(s: seq<T>, p: T -> bool, q: T -> bool)
    requires forall x :: x in s ==> p(x) == q(x)
    ensures Filter(s, p) == Filter(s, q)
  {
    if s != [] {
      FilterCongruent(s[..|s| - 1], p, q);
    }
  }

  // ---------------------------------------------------------------------
  // subsequences
  // ---------------------------------------------------------------------

  /** `idx` picks, in increasing positions of `b`, the elements of `a`. */
  ghost predicate Embeds<T(!new)>(idx: seq<int>, a: seq<T>, b: seq<T>) {
    && |idx| == |a|
    && (forall k :: 0 <= k < |idx| ==> 0 <= idx[k] < |b| && a[k] == b[idx[k]])
    && (forall k, l :: 0 <= k < l < |idx| ==> idx[k] < idx[l])
  }

  /** `a` is `b` with some elements left out and the rest in their order. */
  ghost predicate IsSubsequence<T(!new)>(a: seq<T>, b: seq<T>) {
    exists idx :: Embeds(idx, a, b)
  }

  /** The positions of `s` that `Filter` keeps. */
  lemma {:induction false} FilterPositions<T(!new)>(s: seq<T>, p: T -> bool) returns (idx: seq<int>)
    ensures Embeds(idx, Filter(s, p), s)
  {
    if s == [] {
      idx := [];
    } else {
      var init, last := s[..|s| - 1], s[|s| - 1];
      var prev := FilterPositions(init, p);
      if p(last) {
        var f := Filter(init, p);
        idx := prev + [|s| - 1];
        assert Filter(s, p) == f + [last];
        forall k | 0 <= k < |idx|
          ensures 0 <= idx[k] < |s| && Filter(s, p)[k] == s[idx[k]]
        {
          if k < |prev| {
            assert idx[k] == prev[k] && Filter(s, p)[k] == f[k];
          }
        }
      } else {
        idx := prev;
      }
    }
  }

  /** Filtering preserves order: its result is a subsequence of its input. */
  lemma FilterIsSubsequence<T(!new)>(s: seq<T>, p: T -> bool)
    ensures IsSubsequence(Filter(s, p), s)
  {
    var idx := FilterPositions(s, p);
  }

  // ---------------------------------------------------------------------
  // identifiers
  // ---------------------------------------------------------------------

  /** Some element of `s` carries the identifier `id`. */
  ghost predicate HasId<T(!new)>(s: seq<T>, idOf: T -> string, id: string) {
    exists i :: 0 <= i < |s| && idOf(s[i]) == id
  }

  /** No two elements of `s` carry the same identifier. */
  ghost predicate DistinctIds<T(!new)>(s: seq<T>, idOf: T -> string) {
    forall i, j :: 0 <= i < j < |s| ==> idOf(s[i]) != idOf(s[j])
  }

  /** The position of the first element carrying `id`, or `|s|` if none does. */
  function IndexOfId<T(!new)>(s: seq<T>, idOf: T -> string, id: string): (k: nat)
    ensures k <= |s|
    ensures k < |s| ==> idOf(s[k]) == id
    ensures forall j :: 0 <= j < k ==> idOf(s[j]) != id
  {
    if s == [] then 0
    else if idOf(s[0]) == id then 0
    else 1 + IndexOfId(s[1..], idOf, id)
  }

  /** `s.find(x => x.id === id)`: the first element carrying `id`. */
  function FindById<T(!new)>(s: seq<T>, idOf: T -> string, id: string): (r: Option<T>)
    ensures r.None? <==> !HasId(s, idOf, id)
    ensures r.Some? ==> idOf(r.value) == id && r.value in s
    ensures forall i :: 0 <= i < |s| && idOf(s[i]) == id && DistinctIds(s, idOf) ==> r == Some(s[i])
  {
    var k := IndexOfId(s, idOf, id);
    if k < |s| then Some(s[k]) else None
  }

  /** The test "does not carry `id`" used by the delete operations. */
  function IdIsNot<T(!new)>(idOf: T -> string, id: string): T -> bool {
    x => idOf(x) != id
  }

  /** `s.map(x => x.id === u.id ? u : x)`: every element carrying `u`'s
      identifier is replaced by `u`; identifiers stay where they were. */
  function ReplaceById<T(!new)>(s: seq<T>, idOf: T -> string, u: T): (r: seq<T>)
    ensures |r| == |s|
    ensures forall i :: 0 <= i < |s| ==> idOf(r[i]) == idOf(s[i])
  {
    seq(|s|, i requires 0 <= i < |s| => if idOf(s[i]) == idOf(u) then u else s[i])
  }

  /** With distinct identifiers, exactly the one matching element is replaced. */
  lemma ReplaceByIdAt<T(!new)>(s: seq<T>, idOf: T -> string, u: T, k: int)
    requires DistinctIds(s, idOf) && 0 <= k < |s| && idOf(s[k]) == idOf(u)
    ensures ReplaceById(s, idOf, u) == s[k := u]
  {
  }

  /** An identifier that is not present replaces nothing. */
  lemma ReplaceByIdAbsent<T(!new)>(s: seq<T>, idOf: T -> string, u: T)
    requires !HasId(s, idOf, idOf(u))
    ensures ReplaceById(s, idOf, u) == s
  {
  }

  /** A subsequence of a list with distinct identifiers has distinct identifiers. */
  lemma SubsequenceDistinct<T(!new)>(a: seq<T>, b: seq<T>, idOf: T -> string)
    requires IsSubsequence(a, b) && DistinctIds(b, idOf)
    ensures DistinctIds(a, idOf)
  {
    var idx :| Embeds(idx, a, b);
  }

  // ---------------------------------------------------------------------
  // sorting by a numeric key, largest first
  // ---------------------------------------------------------------------

  /** The keys never increase along `s`. */
  ghost predicate SortedDesc<T(!new)>(s: seq<T>, key: T -> int) {
    forall i, j :: 0 <= i < j < |s| ==> key(s[i]) >= key(s[j])
  }

  /** A subsequence of a sorted list is sorted. */
  lemma SubsequenceSorted<T(!new)>(a: seq<T>, b: seq<T>, key: T -> int)
    requires IsSubsequence(a, b) && SortedDesc(b, key)
    ensures SortedDesc(a, key)
  {
    var idx :| Embeds(idx, a, b);
  }

  /** Places `x` before the first element whose key is not larger than its own. */
  function Insert<T(!new)>(x: T, s: seq<T>, key: T -> int): (r: seq<T>)
    ensures |r| == |s| + 1
    ensures forall y :: y in r <==> y == x || y in s
  {
    if s == [] || key(s[0]) <= key(x) then [x] + s
    else
      assert s == [s[0]] + s[1..];
      [s[0]] + Insert(x, s[1..], key)
  }

  lemma {:induction false} InsertCount<T(!new)>(x: T, s: seq<T>, key: T -> int)
    ensures multiset(Insert(x, s, key)) == multiset(s) + multiset{x}
  {
    if s != [] && key(s[0]) > key(x) {
      InsertCount(x, s[1..], key);
      assert s == [s[0]] + s[1..];
    }
  }

  lemma {:induction false} InsertSorted<T(!new)>(x: T, s: seq<T>, key: T -> int)
    requires SortedDesc(s, key)
    ensures SortedDesc(Insert(x, s, key), key)
  {
    if s != [] && key(s[0]) > key(x) {
      InsertSorted(x, s[1..], key);
      var r := Insert(x, s[1..], key);
      forall y | y in r ensures key(y) <= key(s[0]) {
        if y != x {
          var j :| 1 <= j < |s| && s[j] == y;
        }
      }
    }
  }

  lemma {:induction false} InsertDistinct<T(!new)>(x: T, s: seq<T>, key: T -> int, idOf: T -> string)
    requires DistinctIds(s, idOf)
    requires forall y :: y in s ==> idOf(y) != idOf(x)
    ensures DistinctIds(Insert(x, s, key), idOf)
  {
    if s != [] && key(s[0]) > key(x) {
      InsertDistinct(x, s[1..], key, idOf);
      var r := Insert(x, s[1..], key);
      forall y | y in r ensures idOf(y) != idOf(s[0]) {
        if y != x {
          var j :| 1 <= j < |s| && s[j] == y;
        }
      }
    }
  }

  /** `s.sort((a, b) => key(b) - key(a))`: a stable sort, largest key first. */
  function SortDesc<T(!new)>(s: seq<T>, key: T -> int): (r: seq<T>)
    ensures |r| == |s|
    ensures forall y :: y in r <==> y in s
    ensures SortedDesc(r, key)
  {
    if s == [] then []
    else
      var rest := SortDesc(s[1..], key);
      InsertSorted(s[0], rest, key);
      assert s == [s[0]] + s[1..];
      Insert(s[0], rest, key)
  }

  /** Sorting rearranges: the result holds every element as often as `s`. */
  lemma {:induction false} SortCount<T(!new)>(s: seq<T>, key: T -> int)
    ensures multiset(SortDesc(s, key)) == multiset(s)
  {
    if s != [] {
      SortCount(s[1..], key);
      InsertCount(s[0], SortDesc(s[1..], key), key);
      assert s == [s[0]] + s[1..];
    }
  }

  /** Sorting keeps identifiers distinct. */
  lemma {:induction false} SortDistinct<T(!new)>(s: seq<T>, key: T -> int, idOf: T -> string)
    requires DistinctIds(s, idOf)
    ensures DistinctIds(SortDesc(s, key), idOf)
  {
    if s != [] {
      SortDistinct(s[1..], key, idOf);
      forall y | y in SortDesc(s[1..], key) ensures idOf(y) != idOf(s[0]) {
        var j :| 1 <= j < |s| && s[j] == y;
      }
      InsertDistinct(s[0], SortDesc(s[1..], key), key, idOf);
    }
  }

  /** A list that is already sorted is left exactly as it is. */
  lemma {:induction false} SortedUnchanged<T(!new)>(s: seq<T>, key: T -> int)
    requires SortedDesc(s, key)
    ensures SortDesc(s, key) == s
  {
    if s != [] {
      SortedUnchanged(s[1..], key);
      assert s == [s[0]] + s[1..];
    }
  }

  // ---------------------------------------------------------------------
  // sums: `reduce((sum, x) => sum + f(x), 0)`
  // ---------------------------------------------------------------------

  /** The left-to-right sum of `f` over `s`. */
  function SumBy<T(!new)>(s: seq<T>, f: T -> real): real {
    if s == [] then 0.0 else SumBy(s[..|s| - 1], f) + f(s[|s| - 1])
  }

  lemma {:induction false} SumByConcat<T(!new)>(a: seq<T>, b: seq<T>, f: T -> real)
    ensures SumBy(a + b, f) == SumBy(a, f) + SumBy(b, f)
  {
    if b != [] {
      SumByConcat(a, b[..|b| - 1], f);
      assert (a + b)[..|a + b| - 1] == a + b[..|b| - 1];
    } else {
      assert a + b == a;
    }
  }

  /** Taking one element out of a list takes its summand out of the sum. */
  lemma SumByRemoveAt<T(!new)>(b: seq<T>, j: int, f: T -> real)
    requires 0 <= j < |b|
    ensures SumBy(b, f) == SumBy(b[..j] + b[j + 1..], f) + f(b[j])
  {
    var left, right := b[..j] + [b[j]], b[j + 1..];
    assert b == left + right;
    assert SumBy(left, f) == SumBy(b[..j], f) + f(b[j]) by {
      assert left[..|left| - 1] == b[..j];
    }
    SumByConcat(left, right, f);
    SumByConcat(b[..j], right, f);
  }

  /** Taking the last element of `a` and a copy of it out of a permutation
      `b` of `a` leaves two permutations of each other. */
  lemma PermutationDropLast<T(!new)>(a: seq<T>, b: seq<T>, j: int)
    requires multiset(a) == multiset(b) && a != []
    requires 0 <= j < |b| && b[j] == a[|a| - 1]
    ensures multiset(a[..|a| - 1]) == multiset(b[..j] + b[j + 1..])
  {
    var init, x, rest := a[..|a| - 1], a[|a| - 1], b[..j] + b[j + 1..];
    assert multiset(b) == multiset(rest) + multiset{x} by {
      assert b == b[..j] + [x] + b[j + 1..];
    }
    assert multiset(a) == multiset(init) + multiset{x} by {
      assert a == init + [x];
    }
    forall y ensures multiset(init)[y] == multiset(rest)[y] {
      assert multiset(a)[y] == multiset(b)[y];
    }
  }

  /** The sum does not depend on the order of the elements. */
  lemma {:induction false} SumByPermutation<T(!new)>(a: seq<T>, b: seq<T>, f: T -> real)
    requires multiset(a) == multiset(b)
    ensures SumBy(a, f) == SumBy(b, f)
  {
    if a != [] {
      var x := a[|a| - 1];
      assert x in multiset(b) by {
        assert x in multiset(a);
      }
      var j :| 0 <= j < |b| && b[j] == x;
      PermutationDropLast(a, b, j);
      SumByPermutation(a[..|a| - 1], b[..j] + b[j + 1..], f);
      SumByRemoveAt(b, j, f);
    } else {
      assert b == [] by {
        assert |multiset(b)| == 0;
      }
    }
  }

  /** Replacing one element changes the sum by the difference of the two. */
  lemma {:induction false} SumByUpdate<T(!new)>(s: seq<T>, f: T -> real, i: int, x: T)
    requires 0 <= i < |s|
    ensures SumBy(s[i := x], f) == SumBy(s, f) - f(s[i]) + f(x)
  {
    if i < |s| - 1 {
      SumByUpdate(s[..|s| - 1], f, i, x);
      assert s[i := x][..|s| - 1] == s[..|s| - 1][i := x];
    } else {
      assert s[i := x][..|s| - 1] == s[..|s| - 1];
    }
  }

  /** Two summands that agree on every element give the same sum. */
  lemma {:induction false} SumByCongruent<T(!new)>(s: seq<T>, f: T -> real, g: T -> real)
    requires forall i :: 0 <= i < |s| ==> f(s[i]) == g(s[i])
    ensures SumBy(s, f) == SumBy(s, g)
  {
    if s != [] {
      SumByCongruent(s[..|s| - 1], f, g);
    }
  }

  /** Summing `f` over a filter is summing, over the whole list, any `g`
      that is `f` where the test holds and 0 elsewhere. */
  lemma {:induction false} SumByFilter<T(!new)>(s: seq<T>, p: T -> bool, f: T -> real, g: T -> real)
    requires forall x :: x in s ==> g(x) == if p(x) then f(x) else 0.0
    ensures SumBy(Filter(s, p), f) == SumBy(s, g)
  {
    if s != [] {
      SumByFilter(s[..|s| - 1], p, f, g);
      if p(s[|s| - 1]) {
        var r := Filter(s[..|s| - 1], p) + [s[|s| - 1]];
        assert r[..|r| - 1] == Filter(s[..|s| - 1], p);
      }
    }
  }

  // ---------------------------------------------------------------------
  // first occurrences and reversal
  // ---------------------------------------------------------------------

  /** The distinct values of `s` in the order of their first occurrence. */
  function Dedupe<T(==,!new)>(s: seq<T>): (r: seq<T>)
    ensures forall x :: x in r <==> x in s
    ensures forall i, j :: 0 <= i < j < |r| ==> r[i] != r[j]
  {
    if s == [] then []
    else
      var d, x := Dedupe(s[..|s| - 1]), s[|s| - 1];
      assert s == s[..|s| - 1] + [x];
      if x in d then d else d + [x]
  }

  /** One more value extends the distinct values when it is new. */
  lemma DedupeStep<T(!new)>(s: seq<T>, x: T)
    ensures Dedupe(s + [x]) == if x in s then Dedupe(s) else Dedupe(s) + [x]
  {
    assert (s + [x])[..|s|] == s;
  }

  /** `[...s].reverse()`. */
  function Reverse<T(!new)>(s: seq<T>): (r: seq<T>)
    ensures |r| == |s|
    ensures forall i :: 0 <= i < |s| ==> r[i] == s[|s| - 1 - i]
  {
    if s == [] then [] else [s[|s| - 1]] + Reverse(s[..|s| - 1])
  }

  // ---------------------------------------------------------------------
  // the three list updates of the store
  // ---------------------------------------------------------------------

  /** `[x, ...s].sort(byKeyDesc)`: add an element and re-sort. */
  function AddSorted<T(!new)>(x: T, s: seq<T>, key: T -> int): seq<T> {
    SortDesc([x] + s, key)
  }

  /** `s.map(y => y.id === u.id ? u : y).sort(byKeyDesc)`. */
  function UpdateSorted<T(!new)>(s: seq<T>, idOf: T -> string, u: T, key: T -> int): seq<T> {
    SortDesc(ReplaceById(s, idOf, u), key)
  }

  /** `s.filter(y => y.id !== id)`. */
  function RemoveById<T(!new)>(s: seq<T>, idOf: T -> string, id: string): seq<T> {
    Filter(s, IdIsNot(idOf, id))
  }

  /** Filtering a concatenation filters each part. */
  lemma {:induction false} FilterConcat<T(!new)>(a: seq<T>, b: seq<T>, p: T -> bool)
    ensures Filter(a + b, p) == Filter(a, p) + Filter(b, p)
  {
    if b == [] {
      assert a + b == a;
    } else {
      var init, last := b[..|b| - 1], b[|b| - 1];
      FilterConcat(a, init, p);
      assert (a + b)[..|a + b| - 1] == a + init;
      assert (a + b)[|a + b| - 1] == last;
      if p(last) {
        assert Filter(a + b, p) == Filter(a + init, p) + [last];
        assert Filter(b, p) == Filter(init, p) + [last];
        assert (Filter(a, p) + Filter(init, p)) + [last] == Filter(a, p) + (Filter(init, p) + [last]);
      } else {
        assert Filter(a + b, p) == Filter(a + init, p);
        assert Filter(b, p) == Filter(init, p);
      }
    }
  }

  /** Adding to a sorted list inserts the new element in front of the
      elements whose key is not larger (so a stable sort keeps the order of
      the rest); the result is sorted and holds one element more. */
  lemma AddSortedEffect<T(!new)>(x: T, s: seq<T>, key: T -> int)
    requires SortedDesc(s, key)
    ensures AddSorted(x, s, key) == Insert(x, s, key)
    ensures SortedDesc(AddSorted(x, s, key), key)
    ensures multiset(AddSorted(x, s, key)) == multiset(s) + multiset{x}
  {
    assert ([x] + s)[1..] == s;
    SortedUnchanged(s, key);
    InsertCount(x, s, key);
  }

  /** A fresh identifier keeps the identifiers distinct. */
  lemma AddSortedDistinct<T(!new)>(x: T, s: seq<T>, key: T -> int, idOf: T -> string)
    requires DistinctIds(s, idOf) && !HasId(s, idOf, idOf(x))
    ensures DistinctIds(AddSorted(x, s, key), idOf)
  {
    var t := [x] + s;
    forall i, j | 0 <= i < j < |t| ensures idOf(t[i]) != idOf(t[j]) {
      if i > 0 {
        assert t[i] == s[i - 1] && t[j] == s[j - 1];
      } else {
        assert t[j] == s[j - 1];
      }
    }
    SortDistinct(t, key, idOf);
  }

  /** Updating keeps identifiers distinct and the list sorted; with `u`'s
      identifier at position `k` it is that one replacement, re-sorted;
      with an identifier that is absent, a sorted list is left as it was. */
  lemma UpdateSortedEffect<T(!new)>(s: seq<T>, idOf: T -> string, u: T, key: T -> int)
    requires DistinctIds(s, idOf)
    ensures DistinctIds(UpdateSorted(s, idOf, u, key), idOf)
    ensures SortedDesc(UpdateSorted(s, idOf, u, key), key)
    ensures forall k :: 0 <= k < |s| && idOf(s[k]) == idOf(u) ==>
      multiset(UpdateSorted(s, idOf, u, key)) == multiset(s[k := u])
    ensures !HasId(s, idOf, idOf(u)) && SortedDesc(s, key) ==> UpdateSorted(s, idOf, u, key) == s
  {
    var r := ReplaceById(s, idOf, u);
    SortDistinct(r, key, idOf);
    SortCount(r, key);
    forall k | 0 <= k < |s| && idOf(s[k]) == idOf(u)
      ensures multiset(UpdateSorted(s, idOf, u, key)) == multiset(s[k := u])
    {
      ReplaceByIdAt(s, idOf, u, k);
    }
    if !HasId(s, idOf, idOf(u)) && SortedDesc(s, key) {
      ReplaceByIdAbsent(s, idOf, u);
      SortedUnchanged(s, key);
    }
  }

  /** Removing keeps the order of the rest (a subsequence, so sortedness and
      distinct identifiers survive), drops exactly the elements with the
      identifier, and drops only position `k` when identifiers are distinct;
      an absent identifier removes nothing. */
  lemma RemoveByIdEffect<T(!new)>(s: seq<T>, idOf: T -> string, id: string, key: T -> int)
    ensures IsSubsequence(RemoveById(s, idOf, id), s)
    ensures forall x :: x in RemoveById(s, idOf, id) <==> x in s && idOf(x) != id
    ensures !HasId(RemoveById(s, idOf, id), idOf, id)
    ensures SortedDesc(s, key) ==> SortedDesc(RemoveById(s, idOf, id), key)
    ensures DistinctIds(s, idOf) ==> DistinctIds(RemoveById(s, idOf, id), idOf)
    ensures !HasId(s, idOf, id) ==> RemoveById(s, idOf, id) == s
    ensures forall k :: 0 <= k < |s| && idOf(s[k]) == id && DistinctIds(s, idOf) ==>
      RemoveById(s, idOf, id) == s[..k] + s[k + 1..]
  {
    var p := IdIsNot(idOf, id);
    var r := RemoveById(s, idOf, id);
    FilterIsSubsequence(s, p);
    if SortedDesc(s, key) {
      SubsequenceSorted(r, s, key);
    }
    if DistinctIds(s, idOf) {
      SubsequenceDistinct(r, s, idOf);
    }
    if !HasId(s, idOf, id) {
      FilterKeepsAll(s, p);
    }
    forall i | 0 <= i < |r| ensures idOf(r[i]) != id {
      assert r[i] in r;
    }
    forall k | 0 <= k < |s| && idOf(s[k]) == id && DistinctIds(s, idOf)
      ensures r == s[..k] + s[k + 1..]
    {
      RemoveAt(s, idOf, k);
    }
  }

  lemma RemoveAt<T(!new)>(s: seq<T>, idOf: T -> string, k: int)
    requires DistinctIds(s, idOf) && 0 <= k < |s|
    ensures RemoveById(s, idOf, idOf(s[k])) == s[..k] + s[k + 1..]
  {
    var p := IdIsNot(idOf, idOf(s[k]));
    var a, b := s[..k], s[k + 1..];
    assert s == a + [s[k]] + b;
    forall x | x in a ensures p(x) {
      var i :| 0 <= i < |a| && a[i] == x;
      assert x == s[i];
    }
    forall x | x in b ensures p(x) {
      var i :| 0 <= i < |b| && b[i] == x;
      assert x == s[k + 1 + i];
    }
    FilterKeepsAll(a, p);
    FilterKeepsAll(b, p);
    FilterConcat(a + [s[k]], b, p);
    FilterConcat(a, [s[k]], p);
    assert Filter([s[k]], p) == [] by {
      assert [s[k]][..0] == [];
    }
  }

  /** Adding adds the new element's share to a sum over the list. */
  lemma SumAfterAdd<T(!new)>(x: T, s: seq<T>, key: T -> int, f: T -> real)
    requires SortedDesc(s, key)
    ensures SumBy(AddSorted(x, s, key), f) == SumBy(s, f) + f(x)
  {
    AddSortedEffect(x, s, key);
    SumByPermutation(AddSorted(x, s, key), [x] + s, f);
    SumByConcat([x], s, f);
    assert SumBy([x], f) == f(x) by {
      assert [x][..0] == [];
    }
  }

  /** Replacing the element at position `k` swaps its share for `u`'s. */
  lemma SumAfterUpdate<T(!new)>(s: seq<T>, idOf: T -> string, u: T, key: T -> int, f: T -> real, k: int)
    requires DistinctIds(s, idOf) && 0 <= k < |s| && idOf(s[k]) == idOf(u)
    ensures SumBy(UpdateSorted(s, idOf, u, key), f) == SumBy(s, f) - f(s[k]) + f(u)
  {
    UpdateSortedEffect(s, idOf, u, key);
    SumByPermutation(UpdateSorted(s, idOf, u, key), s[k := u], f);
    SumByUpdate(s, f, k, u);
  }

  /** Removing the identifier of position `k` subtracts that element's share. */
  lemma SumAfterRemove<T(!new)>(s: seq<T>, idOf: T -> string, f: T -> real, k: int)
    requires DistinctIds(s, idOf) && 0 <= k < |s|
    ensures SumBy(RemoveById(s, idOf, idOf(s[k])), f) == SumBy(s, f) - f(s[k])
  {
    RemoveAt(s, idOf, k);
    SumByRemoveAt(s, k, f);
  }
}
