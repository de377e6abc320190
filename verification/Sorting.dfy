// What Go's sort package promises, independent of its algorithm: a permutation
// of the input with no pair out of order, and for the stable variant equal
// elements in their original order.
module Sorting {
  import opened Common

  ghost predicate IsSorted<T(!new)>(s: seq<T>, less: (T, T) -> bool) {
    forall i, j :: 0 <= i < j < |s| ==> !less(s[j], s[i])
  }

  ghost predicate IsSortOf<T(!new)>(r: seq<T>, s: seq<T>, less: (T, T) -> bool) {
    IsPermutation(r, s) && IsSorted(r, less)
  }

  /** Distinct members of s always compare one way or the other. */
  ghost predicate TotalOn<T(!new)>(s: seq<T>, less: (T, T) -> bool) {
    forall x, y :: x in s && y in s && x != y ==> less(x, y) || less(y, x)
  }

  /** In a sorted sequence nothing precedes the head. */
  lemma SortedHeads<T(!new)>(r1: seq<T>, r2: seq<T>, less: (T, T) -> bool)
    requires IsPermutation(r1, r2) && IsSorted(r1, less) && IsSorted(r2, less)
    requires TotalOn(r1, less) && r1 != []
    ensures r2 != [] && r1[0] == r2[0]
  {
    PermutationMembers(r1, r2);
    var x, y := r1[0], r2[0];
    assert x in r2 && y in r1;
    assert y == x || !less(y, x);
    assert x == y || !less(x, y);
  }

  lemma TailOf<T(!new)>(r: seq<T>, less: (T, T) -> bool)
    requires r != []
    ensures multiset(r[1..]) == multiset(r) - multiset{r[0]}
    ensures IsSorted(r, less) ==> IsSorted(r[1..], less)
    ensures TotalOn(r, less) ==> TotalOn(r[1..], less)
  {
    assert r == [r[0]] + r[1..];
    assert forall x :: x in r[1..] ==> x in r;
  }

  /** With no ties there is only one way to be sorted. */
  lemma {:induction false} SortUnique<T(!new)>(r1: seq<T>, r2: seq<T>, less: (T, T) -> bool)
    requires IsPermutation(r1, r2) && IsSorted(r1, less) && IsSorted(r2, less)
    requires TotalOn(r1, less)
    ensures r1 == r2
    decreases |r1|
  {
    if r1 == [] {
      PermutationMembers(r1, r2);
    } else {
      SortedHeads(r1, r2, less);
      TailOf(r1, less);
      TailOf(r2, less);
      SortUnique(r1[1..], r2[1..], less);
      assert r1 == [r1[0]] + r1[1..] && r2 == [r2[0]] + r2[1..];
    }
  }

  /** Two elements that compare neither way leave the sort result open. */
  lemma SortOpenOnTies<T(!new)>(r: seq<T>, less: (T, T) -> bool, i: nat, j: nat)
    requires IsSorted(r, less) && i < j < |r| && r[i] != r[j]
    requires forall z :: z in r ==> (less(r[i], z) <==> less(r[j], z)) && (less(z, r[i]) <==> less(z, r[j]))
    ensures exists r' :: IsSortOf(r', r, less) && r' != r
  {
    var r' := r[i := r[j]][j := r[i]];
    assert multiset(r') == multiset(r);
    forall a, b | 0 <= a < b < |r'| ensures !less(r'[b], r'[a]) {
      assert !less(r[b], r[a]);
      assert r[a] in r && r[b] in r;
    }
    assert IsSortOf(r', r, less);
  }

  /** The members of s that compare neither way with x, in order. */
  function Ties<T>(s: seq<T>, x: T, less: (T, T) -> bool): seq<T> {
    if s == [] then []
    else (if !less(s[0], x) && !less(x, s[0]) then [s[0]] else []) + Ties(s[1..], x, less)
  }

  ghost predicate IsStableSortOf<T(!new)>(r: seq<T>, s: seq<T>, less: (T, T) -> bool) {
    IsSortOf(r, s, less) && forall x :: x in s ==> Ties(r, x, less) == Ties(s, x, less)
  }

  ghost predicate StrictWeakOrder<T(!new)>(less: (T, T) -> bool) {
    && (forall x :: !less(x, x))
    && (forall x, y, z :: less(x, y) && less(y, z) ==> less(x, z))
    && (forall x, y, z :: less(x, z) ==> less(x, y) || less(y, z))
  }

  /** Puts x behind every element that it does not precede. */
  function Insert<T>(s: seq<T>, x: T, less: (T, T) -> bool): seq<T>
    decreases |s|
  {
    if s == [] || !less(x, s[|s| - 1]) then s + [x]
    else Insert(s[..|s| - 1], x, less) + [s[|s| - 1]]
  }

  /** A stable sort, standing for sort.SliceStable. */
  function StableSort<T>(s: seq<T>, less: (T, T) -> bool): seq<T>
    decreases |s|
  {
    if s == [] then []
    else Insert(StableSort(s[..|s| - 1], less), s[|s| - 1], less)
  }

  lemma {:induction false} TiesAppend<T>(a: seq<T>, b: seq<T>, x: T, less: (T, T) -> bool)
    ensures Ties(a + b, x, less) == Ties(a, x, less) + Ties(b, x, less)
  {
    if a == [] {
      assert a + b == b;
    } else {
      assert (a + b)[1..] == a[1..] + b;
      TiesAppend(a[1..], b, x, less);
    }
  }

  lemma {:induction false} InsertMembers<T>(s: seq<T>, x: T, less: (T, T) -> bool)
    ensures multiset(Insert(s, x, less)) == multiset(s) + multiset{x}
    decreases |s|
  {
    if s != [] && less(x, s[|s| - 1]) {
      var rest, last := s[..|s| - 1], s[|s| - 1];
      InsertMembers(rest, x, less);
      assert s == rest + [last];
      assert multiset(Insert(s, x, less)) == multiset(Insert(rest, x, less)) + multiset{last};
    }
  }

  lemma {:induction false} InsertSorted<T(!new)>(s: seq<T>, x: T, less: (T, T) -> bool)
    requires IsSorted(s, less) && StrictWeakOrder(less)
    ensures IsSorted(Insert(s, x, less), less)
    decreases |s|
  {
    if s != [] {
      var last := s[|s| - 1];
      if less(x, last) {
        var rest := s[..|s| - 1];
        InsertSorted(rest, x, less);
        InsertMembers(rest, x, less);
        var r := Insert(rest, x, less);
        forall i | 0 <= i < |r| ensures !less(last, r[i]) {
          assert r[i] in multiset(r);
          assert r[i] in multiset(rest) || r[i] == x;
        }
      } else {
        forall i | 0 <= i < |s| ensures !less(x, s[i]) {
          assert !less(last, s[i]);
        }
      }
    }
  }

  lemma {:induction false} InsertTies<T(!new)>(s: seq<T>, x: T, y: T, less: (T, T) -> bool)
    requires StrictWeakOrder(less)
    ensures Ties(Insert(s, x, less), y, less) == Ties(s + [x], y, less)
    decreases |s|
  {
    if s != [] && less(x, s[|s| - 1]) {
      var rest, last := s[..|s| - 1], s[|s| - 1];
      InsertTies(rest, x, y, less);
      TiesAppend(Insert(rest, x, less), [last], y, less);
      TiesAppend(rest, [x], y, less);
      TiesAppend(rest, [last], y, less);
      TiesAppend(s, [x], y, less);
      assert s == rest + [last];
      assert Ties([x], y, less) == [] || Ties([last], y, less) == [];
    }
  }

  lemma {:induction false} StableSortCorrect<T(!new)>(s: seq<T>, less: (T, T) -> bool)
    requires StrictWeakOrder(less)
    ensures IsStableSortOf(StableSort(s, less), s, less)
    decreases |s|
  {
    if s != [] {
      var rest, last := s[..|s| - 1], s[|s| - 1];
      assert s == rest + [last];
      var r := StableSort(rest, less);
      StableSortCorrect(rest, less);
      InsertMembers(r, last, less);
      InsertSorted(r, last, less);
      forall y | y in s ensures Ties(Insert(r, last, less), y, less) == Ties(s, y, less) {
        InsertTies(r, last, y, less);
        TiesAppend(r, [last], y, less);
        TiesAppend(rest, [last], y, less);
        if y !in rest {
          StableTies(rest, y, less);
        }
      }
    }
  }

  /** Stability holds for comparison with any value, not only with members. */
  lemma {:induction false} StableTies<T(!new)>(s: seq<T>, y: T, less: (T, T) -> bool)
    requires StrictWeakOrder(less)
    ensures Ties(StableSort(s, less), y, less) == Ties(s, y, less)
    decreases |s|
  {
    if s != [] {
      var rest, last := s[..|s| - 1], s[|s| - 1];
      assert s == rest + [last];
      StableTies(rest, y, less);
      InsertTies(StableSort(rest, less), last, y, less);
      TiesAppend(StableSort(rest, less), [last], y, less);
      TiesAppend(rest, [last], y, less);
    }
  }

  /** One pass over s that keeps the latest element not below the one kept so far. */
  function LastMax<T>(s: seq<T>, less: (T, T) -> bool): T
    requires s != []
    decreases |s|
  {
    var last := s[|s| - 1];
    if |s| == 1 then last
    else
      var m := LastMax(s[..|s| - 1], less);
      if less(last, m) then m else last
  }

  /** LastMax is a maximal element, and nothing behind it is maximal too. */
  lemma {:induction false} LastMaxIsLastMaximal<T(!new)>(s: seq<T>, less: (T, T) -> bool) returns (k: nat)
    requires s != [] && StrictWeakOrder(less)
    ensures k < |s| && s[k] == LastMax(s, less)
    ensures forall j :: 0 <= j < |s| ==> !less(s[k], s[j])
    ensures forall j :: k < j < |s| ==> less(s[j], s[k])
    decreases |s|
  {
    var last := s[|s| - 1];
    if |s| == 1 {
      k := 0;
    } else {
      k := LastMaxIsLastMaximal(s[..|s| - 1], less);
      if !less(last, s[k]) {
        forall j | 0 <= j < |s| - 1 ensures !less(last, s[j]) {
          assert !less(s[k], s[..|s| - 1][j]);
        }
        k := |s| - 1;
      }
    }
  }

  lemma {:induction false} TiesLast<T>(s: seq<T>, x: T, less: (T, T) -> bool, k: nat)
    requires k < |s| && !less(s[k], x) && !less(x, s[k])
    requires forall j :: k < j < |s| ==> less(s[j], x)
    ensures var t := Ties(s, x, less); t != [] && t[|t| - 1] == s[k]
    decreases |s|
  {
    if k > 0 {
      TiesLast(s[1..], x, less, k - 1);
    } else {
      TiesNone(s[1..], x, less);
    }
  }

  lemma {:induction false} TiesNone<T>(s: seq<T>, x: T, less: (T, T) -> bool)
    requires forall y :: y in s ==> less(y, x)
    ensures Ties(s, x, less) == []
  {
    if s != [] {
      TiesNone(s[1..], x, less);
    }
  }

  /** The last element of any stable sort is the one a single pass would keep. */
  lemma StableSortLastIsLastMax<T(!new)>(r: seq<T>, s: seq<T>, less: (T, T) -> bool)
    requires s != [] && StrictWeakOrder(less) && IsStableSortOf(r, s, less)
    ensures r != [] && r[|r| - 1] == LastMax(s, less)
  {
    PermutationMembers(r, s);
    var k := LastMaxIsLastMaximal(s, less);
    var m, z := s[k], r[|r| - 1];
    assert z in s && m in r;
    var i :| 0 <= i < |r| && r[i] == m;
    assert !less(z, m);
    var j :| 0 <= j < |s| && s[j] == z;
    assert !less(m, z);
    TiesLast(s, m, less, k);
    TiesLast(r, m, less, |r| - 1);
  }
}
