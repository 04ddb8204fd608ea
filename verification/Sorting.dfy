/** Sorting by a text key and searching a sorted list. */
module Sorting {
  import opened Text

  ghost predicate SortedBy<T(!new)>(s: seq<T>, key: T -> string) {
    forall i, j :: 0 <= i < j < |s| ==> Compare(key(s[i]), key(s[j])) <= 0
  }

  function Insert<T>(s: seq<T>, x: T, key: T -> string): (r: seq<T>)
    ensures |r| == |s| + 1
  {
    if s == [] then [x]
    else if Compare(key(x), key(s[0])) <= 0 then [x] + s
    else [s[0]] + Insert(s[1..], x, key)
  }

  lemma {:induction false} InsertSorted<T(!new)>(s: seq<T>, x: T, key: T -> string)
    requires SortedBy(s, key)
    ensures SortedBy(Insert(s, x, key), key)
    ensures multiset(Insert(s, x, key)) == multiset(s) + multiset{x}
  {
    var r := Insert(s, x, key);
    if s != [] {
      assert s == [s[0]] + s[1..];
      if Compare(key(x), key(s[0])) <= 0 {
        forall j | 0 <= j < |s| ensures Compare(key(x), key(s[j])) <= 0 {
          if j > 0 {
            CompareChain(key(x), key(s[0]), key(s[j]));
          }
        }
      } else {
        InsertSorted(s[1..], x, key);
        CompareFlip(key(x), key(s[0]));
        forall j | 0 < j < |r| ensures Compare(key(r[0]), key(r[j])) <= 0 {
          assert r[j] in multiset(Insert(s[1..], x, key));
          if r[j] != x {
            assert r[j] in s[1..];
          }
        }
      }
    }
  }

  function InsertionSort<T>(s: seq<T>, key: T -> string): (r: seq<T>)
    ensures |r| == |s|
  {
    if s == [] then [] else Insert(InsertionSort(s[..|s| - 1], key), s[|s| - 1], key)
  }

  lemma {:induction false} InsertionSorts<T(!new)>(s: seq<T>, key: T -> string)
    ensures SortedBy(InsertionSort(s, key), key)
    ensures multiset(InsertionSort(s, key)) == multiset(s)
  {
    if s != [] {
      InsertionSorts(s[..|s| - 1], key);
      InsertSorted(InsertionSort(s[..|s| - 1], key), s[|s| - 1], key);
      assert s == s[..|s| - 1] + [s[|s| - 1]];
    }
  }

  /** Sorts in place. Elements with one key may end up in any order. */
  method SortFunc<T(!new)>(a: array<T>, key: T -> string)
    modifies a
    ensures SortedBy(a[..], key)
    ensures multiset(a[..]) == multiset(old(a[..]))
  {
    var sorted := InsertionSort(a[..], key);
    InsertionSorts(a[..], key);
    forall i | 0 <= i < a.Length {
      a[i] := sorted[i];
    }
    assert a[..] == sorted;
  }

  /** The first element with the key, or the place where it would go. */
  method BinarySearchFunc<T(!new)>(a: array<T>, target: string, key: T -> string) returns (idx: nat, found: bool)
    requires SortedBy(a[..], key)
    ensures idx <= a.Length
    ensures forall i :: 0 <= i < idx ==> Compare(key(a[i]), target) < 0
    ensures forall i :: idx <= i < a.Length ==> Compare(key(a[i]), target) >= 0
    ensures found <==> idx < a.Length && key(a[idx]) == target
  {
    var lo, hi := 0, a.Length;
    while lo < hi
      invariant 0 <= lo <= hi <= a.Length
      invariant forall i :: 0 <= i < lo ==> Compare(key(a[i]), target) < 0
      invariant forall i :: hi <= i < a.Length ==> Compare(key(a[i]), target) >= 0
    {
      var mid := (lo + hi) / 2;
      if Compare(key(a[mid]), target) < 0 {
        forall i | 0 <= i < mid ensures Compare(key(a[i]), target) < 0 {
          assert a[..][i] == a[i] && a[..][mid] == a[mid];
          CompareChain(key(a[i]), key(a[mid]), target);
        }
        lo := mid + 1;
      } else {
        forall i | mid <= i < a.Length ensures Compare(key(a[i]), target) >= 0 {
          assert a[..][i] == a[i] && a[..][mid] == a[mid];
          CompareFlip(key(a[mid]), target);
          CompareFlip(key(a[i]), target);
          if i > mid {
            CompareChain(target, key(a[mid]), key(a[i]));
          }
        }
        hi := mid;
      }
    }
    idx := lo;
    if idx < a.Length {
      CompareZero(key(a[idx]), target);
    }
    found := idx < a.Length && Compare(key(a[idx]), target) == 0;
  }

  // ---------------------------------------------------------------- Lookup without order

  function FirstWith<T>(s: seq<T>, target: string, key: T -> string): (i: nat)
    ensures i <= |s|
    ensures forall j :: 0 <= j < i ==> key(s[j]) != target
    ensures i < |s| ==> key(s[i]) == target
  {
    if s == [] || key(s[0]) == target then 0 else FirstWith(s[1..], target, key) + 1
  }

  /** In a sorted list the place the search finds is that of the plain lookup. */
  lemma SearchIsLookup<T(!new)>(s: seq<T>, target: string, key: T -> string, idx: nat)
    requires idx <= |s|
    requires forall i :: 0 <= i < idx ==> Compare(key(s[i]), target) < 0
    requires forall i :: idx <= i < |s| ==> Compare(key(s[i]), target) >= 0
    requires SortedBy(s, key)
    ensures idx < |s| && key(s[idx]) == target ==> FirstWith(s, target, key) == idx
    ensures !(idx < |s| && key(s[idx]) == target) ==> FirstWith(s, target, key) == |s|
  {
    var first := FirstWith(s, target, key);
    forall i | 0 <= i < |s| && key(s[i]) == target ensures idx <= i && key(s[idx]) == target {
      CompareZero(key(s[i]), target);
      assert Compare(key(s[i]), target) == 0;
      if idx < i {
        CompareFlip(key(s[idx]), target);
        assert Compare(key(s[idx]), key(s[i])) <= 0;
        CompareZero(key(s[idx]), target);
      }
    }
  }
}
