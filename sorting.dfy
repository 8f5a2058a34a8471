/**
 * Sorting as the solutions use it: `Vec::sort` / `sort_by` on a total
 * preorder. Rust's slice sort is stable, and so is insertion that places an
 * element after every element not greater than it (`InsertionSortStable`).
 * A sorted, stable permutation is unique (`StableSortIsInsertionSort`), so
 * `InsertionSort` gives the order Rust produces.
 */
module Sorting {

  ghost predicate TotalPreorder<T(!new)>(le: (T, T) -> bool) {
    && (forall a, b :: le(a, b) || le(b, a))
    && (forall a, b, c :: le(a, b) && le(b, c) ==> le(a, c))
  }

  predicate SortedBy<T>(s: seq<T>, le: (T, T) -> bool) {
    forall i, j :: 0 <= i < j < |s| ==> le(s[i], s[j])
  }

  /** Inserts `x` after the last element of `s` that is not greater than it. */
  function Insert<T>(s: seq<T>, x: T, le: (T, T) -> bool): (r: seq<T>)
    ensures |r| == |s| + 1
  {
    if s == [] || le(s[|s| - 1], x) then s + [x]
    else
      assert s == s[..|s| - 1] + [s[|s| - 1]];
      Insert(s[..|s| - 1], x, le) + [s[|s| - 1]]
  }

  lemma {:induction false} InsertPermutes<T>(s: seq<T>, x: T, le: (T, T) -> bool)
    ensures multiset(Insert(s, x, le)) == multiset(s) + multiset{x}
  {
    if s == [] || le(s[|s| - 1], x) {
    } else {
      var front, last := s[..|s| - 1], s[|s| - 1];
      InsertPermutes(front, x, le);
      assert s == front + [last];
    }
  }

  /** Stable insertion sort: each element in turn is inserted into the sorted prefix. */
  function InsertionSort<T>(s: seq<T>, le: (T, T) -> bool): (r: seq<T>)
    ensures |r| == |s|
    ensures multiset(r) == multiset(s)
  {
    if s == [] then []
    else
      assert s == s[..|s| - 1] + [s[|s| - 1]];
      InsertPermutes(InsertionSort(s[..|s| - 1], le), s[|s| - 1], le);
      Insert(InsertionSort(s[..|s| - 1], le), s[|s| - 1], le)
  }

  lemma {:induction false} InsertSorted<T(!new)>(s: seq<T>, x: T, le: (T, T) -> bool)
    requires TotalPreorder(le) && SortedBy(s, le)
    ensures SortedBy(Insert(s, x, le), le)
  {
    if s == [] || le(s[|s| - 1], x) {
    } else {
      var front, last := s[..|s| - 1], s[|s| - 1];
      InsertSorted(front, x, le);
      InsertPermutes(front, x, le);
      var r' := Insert(front, x, le);
      forall i | 0 <= i < |r'| ensures le(r'[i], last) {
        assert r'[i] in multiset(r');
        if r'[i] != x {
          assert r'[i] in multiset(front);
          var k :| 0 <= k < |front| && front[k] == r'[i];
          assert s[k] == front[k];
        }
      }
    }
  }

  /** The sort's result is ordered; with `multiset(r) == multiset(s)` above it is a sorted permutation. */
  lemma {:induction false} InsertionSortSorted<T(!new)>(s: seq<T>, le: (T, T) -> bool)
    requires TotalPreorder(le)
    ensures SortedBy(InsertionSort(s, le), le)
  {
    if s != [] {
      InsertionSortSorted(s[..|s| - 1], le);
      InsertSorted(InsertionSort(s[..|s| - 1], le), s[|s| - 1], le);
    }
  }

  /** Neither of `a` and `b` orders before the other. */
  predicate Equivalent<T>(a: T, b: T, le: (T, T) -> bool) {
    le(a, b) && le(b, a)
  }

  /** The elements of `s` equivalent to `x`, in their order in `s`. */
  function EquivalentTo<T>(s: seq<T>, x: T, le: (T, T) -> bool): seq<T> {
    if s == [] then []
    else EquivalentTo(s[..|s| - 1], x, le) + (if Equivalent(s[|s| - 1], x, le) then [s[|s| - 1]] else [])
  }

  lemma EquivalentToSnoc<T>(s: seq<T>, y: T, x: T, le: (T, T) -> bool)
    ensures EquivalentTo(s + [y], x, le) == EquivalentTo(s, x, le) + (if Equivalent(y, x, le) then [y] else [])
  {
    assert (s + [y])[..|s|] == s;
  }

  /**
   * Insertion appends `y` to the elements equivalent to `x` exactly when it is
   * one of them: it never passes an element equivalent to itself.
   */
  lemma {:induction false} InsertStable<T(!new)>(s: seq<T>, y: T, x: T, le: (T, T) -> bool)
    requires TotalPreorder(le)
    ensures EquivalentTo(Insert(s, y, le), x, le) == EquivalentTo(s, x, le) + (if Equivalent(y, x, le) then [y] else [])
  {
    if s == [] || le(s[|s| - 1], y) {
      EquivalentToSnoc(s, y, x, le);
    } else {
      var front, last := s[..|s| - 1], s[|s| - 1];
      assert s == front + [last];
      InsertStable(front, y, x, le);
      EquivalentToSnoc(Insert(front, y, le), last, x, le);
      EquivalentToSnoc(front, last, x, le);
      if Equivalent(y, x, le) {
        assert !Equivalent(last, x, le);
      }
    }
  }

  /**
   * The sort is stable: the elements equivalent to any `x` come out in the
   * order they went in, as with Rust's `sort_by`.
   */
  lemma {:induction false} InsertionSortStable<T(!new)>(s: seq<T>, x: T, le: (T, T) -> bool)
    requires TotalPreorder(le)
    ensures EquivalentTo(InsertionSort(s, le), x, le) == EquivalentTo(s, x, le)
  {
    if s != [] {
      var front, last := s[..|s| - 1], s[|s| - 1];
      assert s == front + [last];
      InsertionSortStable(front, x, le);
      InsertStable(InsertionSort(front, le), last, x, le);
      EquivalentToSnoc(front, last, x, le);
    }
  }

  /** Removing the same last element on both sides keeps two equal filters equal. */
  lemma EquivalentToFront<T>(r1: seq<T>, r2: seq<T>, x: T, le: (T, T) -> bool)
    requires |r1| > 0 && |r2| > 0 && r1[|r1| - 1] == r2[|r2| - 1]
    requires EquivalentTo(r1, x, le) == EquivalentTo(r2, x, le)
    ensures EquivalentTo(r1[..|r1| - 1], x, le) == EquivalentTo(r2[..|r2| - 1], x, le)
  {
    var e1, e2 := EquivalentTo(r1[..|r1| - 1], x, le), EquivalentTo(r2[..|r2| - 1], x, le);
    var t := if Equivalent(r1[|r1| - 1], x, le) then [r1[|r1| - 1]] else [];
    assert (e1 + t)[..|e1|] == e1;
    assert (e2 + t)[..|e2|] == e2;
  }

  lemma MultisetDropLast<T>(r: seq<T>)
    requires |r| > 0
    ensures multiset(r) == multiset(r[..|r| - 1]) + multiset{r[|r| - 1]}
  {
    assert r == r[..|r| - 1] + [r[|r| - 1]];
  }

  /** In a sorted sequence every element is at most the last. */
  lemma LastIsGreatest<T(!new)>(r: seq<T>, y: T, le: (T, T) -> bool)
    requires TotalPreorder(le) && SortedBy(r, le) && y in r
    ensures le(y, r[|r| - 1])
  {
    var k :| 0 <= k < |r| && r[k] == y;
    if k == |r| - 1 {
      assert le(y, y) || le(y, y);
    }
  }

  /** Two sorted permutations of each other end in equivalent elements. */
  lemma LastsEquivalent<T(!new)>(r1: seq<T>, r2: seq<T>, le: (T, T) -> bool)
    requires TotalPreorder(le) && SortedBy(r1, le) && SortedBy(r2, le)
    requires |r1| > 0 && multiset(r1) == multiset(r2)
    ensures |r2| == |r1| && Equivalent(r2[|r2| - 1], r1[|r1| - 1], le)
    ensures Equivalent(r1[|r1| - 1], r1[|r1| - 1], le)
  {
    assert |r1| == |multiset(r1)| == |r2|;
    var a, b := r1[|r1| - 1], r2[|r2| - 1];
    assert b in multiset(r1) && a in multiset(r2);
    LastIsGreatest(r1, b, le);
    LastIsGreatest(r2, a, le);
    assert le(a, a) || le(a, a);
  }

  /** Of two sequences ending in elements of the class of `a`, equal classes force equal last elements. */
  lemma LastsAgree<T>(r1: seq<T>, r2: seq<T>, a: T, le: (T, T) -> bool)
    requires |r1| > 0 && |r2| > 0
    requires Equivalent(r1[|r1| - 1], a, le) && Equivalent(r2[|r2| - 1], a, le)
    requires EquivalentTo(r1, a, le) == EquivalentTo(r2, a, le)
    ensures r1[|r1| - 1] == r2[|r2| - 1]
  {
    var e := EquivalentTo(r1, a, le);
    assert e == EquivalentTo(r1[..|r1| - 1], a, le) + [r1[|r1| - 1]];
    assert e == EquivalentTo(r2[..|r2| - 1], a, le) + [r2[|r2| - 1]];
  }

  /** A prefix of a sorted sequence is sorted. */
  lemma SortedFront<T>(r: seq<T>, le: (T, T) -> bool)
    requires |r| > 0 && SortedBy(r, le)
    ensures SortedBy(r[..|r| - 1], le)
  {
  }

  /**
   * A sorted permutation that keeps every class of equivalent elements in
   * order is unique: two of them are equal.
   */
  lemma {:induction false} SortedStableUnique<T(!new)>(r1: seq<T>, r2: seq<T>, le: (T, T) -> bool)
    requires TotalPreorder(le) && SortedBy(r1, le) && SortedBy(r2, le)
    requires multiset(r1) == multiset(r2)
    requires forall x :: EquivalentTo(r1, x, le) == EquivalentTo(r2, x, le)
    ensures r1 == r2
    decreases |r1|
  {
    if r1 == [] {
      assert |r2| == |multiset(r2)| == 0;
    } else {
      LastsEquivalent(r1, r2, le);
      LastsAgree(r1, r2, r1[|r1| - 1], le);
      var f1, f2 := r1[..|r1| - 1], r2[..|r2| - 1];
      forall x ensures EquivalentTo(f1, x, le) == EquivalentTo(f2, x, le) {
        EquivalentToFront(r1, r2, x, le);
      }
      MultisetFronts(r1, r2);
      SortedFront(r1, le);
      SortedFront(r2, le);
      SortedStableUnique(f1, f2, le);
      FrontAndLast(r1, r2);
    }
  }

  /** Dropping a common last element from two permutations of each other leaves permutations of each other. */
  lemma MultisetFronts<T>(r1: seq<T>, r2: seq<T>)
    requires |r1| > 0 && |r2| > 0 && r1[|r1| - 1] == r2[|r2| - 1] && multiset(r1) == multiset(r2)
    ensures multiset(r1[..|r1| - 1]) == multiset(r2[..|r2| - 1])
  {
    MultisetDropLast(r1);
    MultisetDropLast(r2);
    assert multiset(r1[..|r1| - 1]) == multiset(r1) - multiset{r1[|r1| - 1]};
  }

  /** Sequences with equal fronts and equal last elements are equal. */
  lemma FrontAndLast<T>(r1: seq<T>, r2: seq<T>)
    requires |r1| > 0 && |r2| > 0 && r1[|r1| - 1] == r2[|r2| - 1] && r1[..|r1| - 1] == r2[..|r2| - 1]
    ensures r1 == r2
  {
    assert r1 == r1[..|r1| - 1] + [r1[|r1| - 1]];
    assert r2 == r2[..|r2| - 1] + [r2[|r2| - 1]];
  }

  /**
   * `InsertionSort` is the stable sort: any sorted permutation of `s` that
   * keeps equivalent elements in their input order is exactly its result.
   */
  lemma StableSortIsInsertionSort<T(!new)>(s: seq<T>, r: seq<T>, le: (T, T) -> bool)
    requires TotalPreorder(le) && SortedBy(r, le) && multiset(r) == multiset(s)
    requires forall x :: EquivalentTo(r, x, le) == EquivalentTo(s, x, le)
    ensures r == InsertionSort(s, le)
  {
    InsertionSortSorted(s, le);
    forall x ensures EquivalentTo(InsertionSort(s, le), x, le) == EquivalentTo(s, x, le) {
      InsertionSortStable(s, x, le);
    }
    SortedStableUnique(r, InsertionSort(s, le), le);
  }

  /** `slice::sort` in place, by insertion: each element in turn joins the sorted prefix. */
  method SortInPlace<T>(a: array<T>, le: (T, T) -> bool)
    modifies a
    ensures a[..] == InsertionSort(old(a[..]), le)
  {
    ghost var input := a[..];
    for i := 0 to a.Length
      invariant SortedUpTo(input, a[..], i, le)
    {
      ghost var prev := a[..];
      InsertLast(a, i, le);
      SortStep(input, prev, a[..], i, le);
    }
    assert input[..a.Length] == input && a[..][..a.Length] == a[..];
  }

  /** `now` holds the first `i` elements of `input` sorted, followed by the rest of `input` untouched. */
  ghost predicate SortedUpTo<T>(input: seq<T>, now: seq<T>, i: nat, le: (T, T) -> bool) {
    |now| == |input| && i <= |now| && now[..i] == InsertionSort(input[..i], le) && now[i..] == input[i..]
  }

  /** `after` is `before` with element `i` inserted into the prefix before it. */
  ghost predicate InsertedAt<T>(before: seq<T>, after: seq<T>, i: nat, le: (T, T) -> bool) {
    i < |before| == |after| && after[..i + 1] == Insert(before[..i], before[i], le) && after[i + 1..] == before[i + 1..]
  }

  /** One insertion extends the sorted prefix by one element. */
  lemma SortStep<T>(input: seq<T>, prev: seq<T>, now: seq<T>, i: nat, le: (T, T) -> bool)
    requires SortedUpTo(input, prev, i, le) && InsertedAt(prev, now, i, le)
    ensures SortedUpTo(input, now, i + 1, le)
  {
    assert prev[i] == input[i] by {
      assert prev[i..][0] == input[i..][0];
    }
    assert input[..i + 1][..i] == input[..i];
    assert now[i + 1..] == input[i + 1..] by {
      assert prev[i + 1..] == prev[i..][1..];
      assert input[i + 1..] == input[i..][1..];
    }
  }

  /**
   * Shifts the elements of `a[..i]` greater than `a[i]` one place right and
   * drops `a[i]` into the gap.
   */
  method InsertLast<T>(a: array<T>, i: nat, le: (T, T) -> bool)
    requires i < a.Length
    modifies a
    ensures InsertedAt(old(a[..]), a[..], i, le)
  {
    var x := a[i];
    ghost var before := a[..];
    var j := i;
    while j > 0 && !le(a[j - 1], x)
      invariant 0 <= j <= i
      invariant forall k :: 0 <= k < j ==> a[k] == before[k]
      invariant forall k :: j < k <= i ==> a[k] == before[k - 1]
      invariant forall k :: i < k < a.Length ==> a[k] == before[k]
      invariant forall k :: j <= k < i ==> !le(before[k], x)
    {
      a[j] := a[j - 1];
      j := j - 1;
    }
    a[j] := x;
    ShiftedInsert(before, a[..], i, j, x, le);
  }

  /** The array after the shifting loop, as sequences: `x` has been inserted into `before[..i]`. */
  lemma ShiftedInsert<T>(before: seq<T>, after: seq<T>, i: nat, j: nat, x: T, le: (T, T) -> bool)
    requires j <= i < |before| == |after|
    requires forall k :: 0 <= k < j ==> after[k] == before[k]
    requires after[j] == x
    requires forall k :: j < k <= i ==> after[k] == before[k - 1]
    requires forall k :: i < k < |after| ==> after[k] == before[k]
    requires j == 0 || le(before[j - 1], x)
    requires forall k :: j <= k < i ==> !le(before[k], x)
    ensures after[..i + 1] == Insert(before[..i], x, le)
    ensures after[i + 1..] == before[i + 1..]
  {
    var sorted := before[..i];
    var want := sorted[..j] + [x] + sorted[j..];
    forall k | 0 <= k <= i ensures after[k] == want[k] {
      if j < k {
        assert want[k] == before[k - 1];
      }
    }
    assert after[..i + 1] == want;
    InsertAt(sorted, x, j, le);
  }

  /**
   * Insertion places `x` at the index `j` that follows the last element not
   * greater than it: everything after `j` is greater than `x`.
   */
  lemma {:induction false} InsertAt<T>(s: seq<T>, x: T, j: nat, le: (T, T) -> bool)
    requires j <= |s|
    requires j == 0 || le(s[j - 1], x)
    requires forall k :: j <= k < |s| ==> !le(s[k], x)
    ensures Insert(s, x, le) == s[..j] + [x] + s[j..]
    decreases |s|
  {
    if j == |s| {
      assert s[..j] == s;
    } else {
      var front, last := s[..|s| - 1], s[|s| - 1];
      assert Insert(s, x, le) == Insert(front, x, le) + [last] by {
        assert !le(last, x);
      }
      assert Insert(front, x, le) == front[..j] + [x] + front[j..] by {
        forall k | j <= k < |front| ensures !le(front[k], x) {
          assert front[k] == s[k];
        }
        InsertAt(front, x, j, le);
      }
      assert front[..j] == s[..j];
      assert s[j..] == front[j..] + [last];
    }
  }
}
