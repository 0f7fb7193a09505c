/** Stable sorting and duplicate removal of vectors, as `sort_by`, `sort_by_key` and
    `dedup_by_key` of the standard library promise them. The sort is written as an insertion sort;
    only its three properties (sorted, a permutation, stable) are used elsewhere. */
module Sorting {

  ghost predicate TotalPreorder<T(!new)>(le: (T, T) -> bool) {
    && (forall x, y :: le(x, y) || le(y, x))
    && (forall x, y, z :: le(x, y) && le(y, z) ==> le(x, z))
  }

  ghost predicate SortedBy<T>(s: seq<T>, le: (T, T) -> bool) {
    forall i, j :: 0 <= i < j < |s| ==> le(s[i], s[j])
  }

  function Insert<T>(x: T, s: seq<T>, le: (T, T) -> bool): seq<T> {
    if s == [] then [x]
    else if le(x, s[0]) then [x] + s
    else [s[0]] + Insert(x, s[1..], le)
  }

  function StableSort<T>(s: seq<T>, le: (T, T) -> bool): seq<T> {
    if s == [] then [] else Insert(s[0], StableSort(s[1..], le), le)
  }

  function Filter<T>(s: seq<T>, p: T -> bool): seq<T> {
    if s == [] then []
    else (if p(s[0]) then [s[0]] else []) + Filter(s[1..], p)
  }

  lemma {:induction false} FilterMember<T>(s: seq<T>, p: T -> bool, x: T)
    ensures x in Filter(s, p) <==> x in s && p(x)
  {
    if s != [] {
      FilterMember(s[1..], p, x);
    }
  }

  lemma {:induction false} InsertPermutes<T>(x: T, s: seq<T>, le: (T, T) -> bool)
    ensures multiset(Insert(x, s, le)) == multiset([x]) + multiset(s)
    ensures |Insert(x, s, le)| == |s| + 1
  {
    if s != [] && !le(x, s[0]) {
      InsertPermutes(x, s[1..], le);
      assert s == [s[0]] + s[1..];
    }
  }

  lemma {:induction false} InsertSorted<T(!new)>(x: T, s: seq<T>, le: (T, T) -> bool)
    requires TotalPreorder(le) && SortedBy(s, le)
    ensures SortedBy(Insert(x, s, le), le)
  {
    if s != [] && !le(x, s[0]) {
      InsertSorted(x, s[1..], le);
      InsertPermutes(x, s[1..], le);
      var rest := Insert(x, s[1..], le);
      forall j | 0 <= j < |rest|
        ensures le(s[0], rest[j])
      {
        assert rest[j] in multiset(rest);
        if rest[j] != x {
          assert rest[j] in s[1..];
        }
      }
    }
  }

  lemma {:induction false} SortPermutes<T>(s: seq<T>, le: (T, T) -> bool)
    ensures multiset(StableSort(s, le)) == multiset(s)
    ensures |StableSort(s, le)| == |s|
    ensures forall x :: x in StableSort(s, le) <==> x in s
  {
    if s != [] {
      SortPermutes(s[1..], le);
      InsertPermutes(s[0], StableSort(s[1..], le), le);
      assert s == [s[0]] + s[1..];
    }
    assert forall x :: x in StableSort(s, le) <==> x in multiset(StableSort(s, le));
    assert forall x :: x in s <==> x in multiset(s);
  }

  lemma {:induction false} SortSorts<T(!new)>(s: seq<T>, le: (T, T) -> bool)
    requires TotalPreorder(le)
    ensures SortedBy(StableSort(s, le), le)
  {
    if s != [] {
      SortSorts(s[1..], le);
      InsertSorted(s[0], StableSort(s[1..], le), le);
    }
  }

  /** The elements a comparator cannot tell apart from `x`. */
  function Tied<T>(le: (T, T) -> bool, x: T): T -> bool {
    y => le(x, y) && le(y, x)
  }

  lemma {:induction false} InsertStable<T(!new)>(x: T, s: seq<T>, le: (T, T) -> bool, z: T)
    requires TotalPreorder(le)
    ensures Filter(Insert(x, s, le), Tied(le, z)) == (if Tied(le, z)(x) then [x] else []) + Filter(s, Tied(le, z))
  {
    if s != [] && !le(x, s[0]) {
      InsertStable(x, s[1..], le, z);
      assert Insert(x, s, le)[1..] == Insert(x, s[1..], le);
      assert !(Tied(le, z)(x) && Tied(le, z)(s[0]));
    } else {
      assert Insert(x, s, le)[1..] == s;
    }
  }

  /** Elements that compare equal keep the order they had. */
  lemma {:induction false} SortStable<T(!new)>(s: seq<T>, le: (T, T) -> bool, z: T)
    requires TotalPreorder(le)
    ensures Filter(StableSort(s, le), Tied(le, z)) == Filter(s, Tied(le, z))
  {
    if s != [] {
      SortStable(s[1..], le, z);
      InsertStable(s[0], StableSort(s[1..], le), le, z);
    }
  }

  function Keys<T>(s: seq<T>, key: T -> int): (ks: seq<int>)
    ensures |ks| == |s| && forall i :: 0 <= i < |s| ==> ks[i] == key(s[i])
  {
    seq(|s|, i requires 0 <= i < |s| => key(s[i]))
  }

  /** `dedup_by_key`: of each run of equal keys only the first element stays. */
  function DedupByKey<T>(s: seq<T>, key: T -> int): (r: seq<T>)
    ensures |s| > 0 ==> |r| > 0 && key(r[|r| - 1]) == key(s[|s| - 1])
  {
    if |s| <= 1 then s
    else
      var front := DedupByKey(s[..|s| - 1], key);
      if key(s[|s| - 1]) == key(s[|s| - 2]) then front else front + [s[|s| - 1]]
  }

  ghost predicate FirstWithKey<T>(s: seq<T>, key: T -> int, x: T) {
    exists i :: 0 <= i < |s| && s[i] == x && forall j :: 0 <= j < i ==> key(s[j]) != key(x)
  }

  ghost predicate KeysAscending<T>(s: seq<T>, key: T -> int) {
    forall i, j :: 0 <= i < j < |s| ==> key(s[i]) <= key(s[j])
  }

  ghost predicate KeysStrictlyAscending<T>(s: seq<T>, key: T -> int) {
    forall i, j :: 0 <= i < j < |s| ==> key(s[i]) < key(s[j])
  }

  ghost predicate HasKey<T>(s: seq<T>, key: T -> int, k: int) {
    exists i :: 0 <= i < |s| && key(s[i]) == k
  }

  lemma {:induction false} DedupAscends<T>(s: seq<T>, key: T -> int)
    requires KeysAscending(s, key)
    ensures KeysStrictlyAscending(DedupByKey(s, key), key)
  {
    if |s| > 1 {
      var front := s[..|s| - 1];
      DedupAscends(front, key);
      var fr := DedupByKey(front, key);
      assert key(fr[|fr| - 1]) == key(s[|s| - 2]) <= key(s[|s| - 1]);
    }
  }

  /** No key is lost. */
  lemma {:induction false} DedupKeepsKeys<T>(s: seq<T>, key: T -> int, i: nat)
    requires i < |s|
    ensures HasKey(DedupByKey(s, key), key, key(s[i]))
  {
    var r := DedupByKey(s, key);
    if |s| > 1 && i < |s| - 1 {
      var front := s[..|s| - 1];
      DedupKeepsKeys(front, key, i);
      var fr := DedupByKey(front, key);
      var j :| 0 <= j < |fr| && key(fr[j]) == key(s[i]);
      assert r[j] == fr[j];
    } else {
      assert key(r[|r| - 1]) == key(s[i]);
    }
  }

  /** Of the elements with one key the first is kept: where that one stands in the original. */
  lemma {:induction false} DedupOrigin<T>(s: seq<T>, key: T -> int, j: nat) returns (i: nat)
    requires KeysAscending(s, key) && j < |DedupByKey(s, key)|
    ensures i < |s| && s[i] == DedupByKey(s, key)[j]
    ensures i > 0 ==> key(s[i - 1]) < key(s[i])
  {
    i := 0;
    if |s| > 1 {
      var front := s[..|s| - 1];
      if j < |DedupByKey(front, key)| {
        i := DedupOrigin(front, key, j);
      } else {
        i := |s| - 1;
      }
    }
  }

  lemma DedupKeepsFirsts<T>(s: seq<T>, key: T -> int, j: nat)
    requires KeysAscending(s, key) && j < |DedupByKey(s, key)|
    ensures FirstWithKey(s, key, DedupByKey(s, key)[j])
  {
    var i := DedupOrigin(s, key, j);
    assert forall k :: 0 <= k < i ==> key(s[k]) <= key(s[i - 1]);
  }
}
