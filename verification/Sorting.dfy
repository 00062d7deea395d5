/** slices.SortStableFunc, as the insertion sort it runs on short slices, and the
    reason why any correct sort gives the same slice: distinct keys. */
module Sorting {

  ghost predicate Signed<T(!new)>(cmp: (T, T) -> int) {
    forall x, y :: cmp(x, y) < 0 <==> cmp(y, x) > 0
  }

  ghost predicate Transitive<T(!new)>(cmp: (T, T) -> int) {
    forall x, y, z :: cmp(x, y) <= 0 && cmp(y, z) <= 0 ==> cmp(x, z) <= 0
  }

  ghost predicate Sorted<T>(cmp: (T, T) -> int, s: seq<T>) {
    forall i, j :: 0 <= i < j < |s| ==> cmp(s[i], s[j]) <= 0
  }

  /** No two elements compare equal. */
  ghost predicate Distinct<T>(cmp: (T, T) -> int, s: seq<T>) {
    forall i, j :: 0 <= i < |s| && 0 <= j < |s| && i != j ==> cmp(s[i], s[j]) != 0
  }

  /** Sorted, except that the element at j may be too small for its place. */
  ghost predicate SortedBut<T>(cmp: (T, T) -> int, s: seq<T>, j: int) {
    forall k, l :: 0 <= k < l < |s| && l != j ==> cmp(s[k], s[l]) <= 0
  }

  method Swap<T>(a: array<T>, j: nat)
    requires 0 < j < a.Length
    modifies a
    ensures a[..] == old(a[..])[j := old(a[j - 1])][j - 1 := old(a[j])]
    ensures multiset(a[..]) == multiset(old(a[..]))
  {
    a[j], a[j - 1] := a[j - 1], a[j];
  }

  lemma SwapKeepsSortedBut<T(!new)>(cmp: (T, T) -> int, s: seq<T>, t: seq<T>, j: nat)
    requires Signed(cmp) && 0 < j < |s| && SortedBut(cmp, s, j) && cmp(s[j], s[j - 1]) < 0
    requires t == s[j := s[j - 1]][j - 1 := s[j]]
    ensures SortedBut(cmp, t, j - 1)
  {
  }

  lemma InPlace<T(!new)>(cmp: (T, T) -> int, s: seq<T>, j: nat)
    requires Signed(cmp) && Transitive(cmp) && j < |s| && SortedBut(cmp, s, j)
    requires j == 0 || cmp(s[j], s[j - 1]) >= 0
    ensures Sorted(cmp, s)
  {
    forall k | 0 <= k < j
      ensures cmp(s[k], s[j]) <= 0
    {
      assert cmp(s[j - 1], s[j]) <= 0;
      assert k < j - 1 ==> cmp(s[k], s[j - 1]) <= 0;
    }
  }

  method InsertionSort<T(!new)>(cmp: (T, T) -> int, a: array<T>)
    requires Signed(cmp) && Transitive(cmp)
    modifies a
    ensures Sorted(cmp, a[..])
    ensures multiset(a[..]) == multiset(old(a[..]))
  {
    var i := 0;
    while i < a.Length
      invariant 0 <= i <= a.Length
      invariant Sorted(cmp, a[..i])
      invariant multiset(a[..]) == multiset(old(a[..]))
    {
      var j := i;
      while j > 0 && cmp(a[j], a[j - 1]) < 0
        invariant 0 <= j <= i < a.Length
        invariant SortedBut(cmp, a[..i + 1], j)
        invariant multiset(a[..]) == multiset(old(a[..]))
      {
        ghost var s := a[..i + 1];
        Swap(a, j);
        SwapKeepsSortedBut(cmp, s, a[..i + 1], j);
        j := j - 1;
      }
      InPlace(cmp, a[..i + 1], j);
      i := i + 1;
    }
    assert a[..i] == a[..];
  }

  /** The first element of a sorted sequence compares no greater than any other. */
  lemma FirstIsLeast<T(!new)>(cmp: (T, T) -> int, s: seq<T>, x: T)
    requires Signed(cmp) && Sorted(cmp, s) && x in s
    ensures cmp(s[0], x) <= 0
  {
    assert cmp(x, x) == 0;
  }

  lemma SameFirst<T(!new)>(cmp: (T, T) -> int, s: seq<T>, t: seq<T>)
    requires Signed(cmp) && Sorted(cmp, s) && Sorted(cmp, t) && Distinct(cmp, s)
    requires s != [] && multiset(s) == multiset(t)
    ensures t != [] && s[0] == t[0]
  {
    assert s[0] in multiset(t);
    assert t[0] in multiset(s);
    FirstIsLeast(cmp, s, t[0]);
    FirstIsLeast(cmp, t, s[0]);
  }

  lemma TailOf<T>(s: seq<T>)
    requires s != []
    ensures s == [s[0]] + s[1..] && multiset(s[1..]) == multiset(s) - multiset{s[0]}
  {
    assert s == [s[0]] + s[1..];
  }

  lemma TailIsSorted<T>(cmp: (T, T) -> int, s: seq<T>)
    requires s != [] && Sorted(cmp, s)
    ensures Sorted(cmp, s[1..]) && (Distinct(cmp, s) ==> Distinct(cmp, s[1..]))
  {
  }

  lemma {:induction false} SortedIsUnique<T(!new)>(cmp: (T, T) -> int, s: seq<T>, t: seq<T>)
    requires Signed(cmp) && Sorted(cmp, s) && Sorted(cmp, t) && Distinct(cmp, s)
    requires multiset(s) == multiset(t)
    ensures s == t
    decreases |s|
  {
    if s == [] {
      assert |multiset(t)| == 0;
    } else {
      SameFirst(cmp, s, t);
      TailIsSorted(cmp, s);
      TailIsSorted(cmp, t);
      TailOf(s);
      TailOf(t);
      SortedIsUnique(cmp, s[1..], t[1..]);
    }
  }

  ghost predicate NoDuplicates<T>(s: seq<T>) {
    forall i, j :: 0 <= i < j < |s| ==> s[i] != s[j]
  }

  lemma OccursOnce<T>(s: seq<T>, v: T)
    requires NoDuplicates(s)
    ensures multiset(s)[v] <= 1
  {
    if v in s {
      var k :| 0 <= k < |s| && s[k] == v;
      assert s == s[..k] + [v] + s[k + 1..] && v !in s[..k] && v !in s[k + 1..];
    }
  }

  lemma PermutationKeepsNoDuplicates<T>(s: seq<T>, t: seq<T>)
    requires NoDuplicates(s) && multiset(s) == multiset(t)
    ensures NoDuplicates(t)
  {
    forall i, j | 0 <= i < j < |t|
      ensures t[i] != t[j]
    {
      assert t == t[..j] + t[j..] && t[i] in t[..j] && t[j] in t[j..];
      OccursOnce(s, t[i]);
    }
  }
}
