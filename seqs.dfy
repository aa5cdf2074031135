/** The collection queries the document store performs on the handlers'
    behalf (`find` with a filter, `findById`, `sort`, `skip`/`limit`),
    stated over an in-memory table kept in the store's natural order. */
module Seqs {
  import opened Http

  function Min(a: int, b: int): int { if a <= b then a else b }

  /** The elements of `s` that satisfy `keep`, in their original order. */
  function Filter<T(!new)>(s: seq<T>, keep: T -> bool): (r: seq<T>)
    ensures forall x :: multiset(r)[x] == if keep(x) then multiset(s)[x] else 0
    ensures forall x :: x in r ==> keep(x) && x in s
    ensures |r| <= |s|
  {
    if s == [] then []
    else
      assert s == [s[0]] + s[1..];
      (if keep(s[0]) then [s[0]] else []) + Filter(s[1..], keep)
  }

  /** No two records of the table share an identifier. */
  ghost predicate DistinctKeys<T>(s: seq<T>, key: T -> nat) {
    forall i, j :: 0 <= i < j < |s| ==> key(s[i]) != key(s[j])
  }

  /** `findById`: the position of the record with identifier `id`, if any. */
  function IndexOf<T>(s: seq<T>, key: T -> nat, id: nat): (r: Option<nat>)
    ensures r.Some? ==> r.value < |s| && key(s[r.value]) == id
    ensures r.Some? ==> forall j :: 0 <= j < r.value ==> key(s[j]) != id
    ensures r.None? <==> forall j :: 0 <= j < |s| ==> key(s[j]) != id
  {
    IndexFrom(s, key, id, 0)
  }

  function IndexFrom<T>(s: seq<T>, key: T -> nat, id: nat, from: nat): (r: Option<nat>)
    requires from <= |s|
    requires forall j :: 0 <= j < from ==> key(s[j]) != id
    ensures r.Some? ==> from <= r.value < |s| && key(s[r.value]) == id
    ensures r.Some? ==> forall j :: 0 <= j < r.value ==> key(s[j]) != id
    ensures r.None? <==> forall j :: 0 <= j < |s| ==> key(s[j]) != id
    decreases |s| - from
  {
    if from == |s| then None
    else if key(s[from]) == id then Some(from)
    else IndexFrom(s, key, id, from + 1)
  }

  /** `deleteOne` on a table with distinct keys: the records that remain
      are exactly those with another key, and keys stay distinct. */
  lemma RemoveAtKey<T(!new)>(s: seq<T>, key: T -> nat, i: nat)
    requires DistinctKeys(s, key) && i < |s|
    ensures DistinctKeys(s[..i] + s[i + 1..], key)
    ensures forall x :: x in s[..i] + s[i + 1..] <==> x in s && key(x) != key(s[i])
  {
    var t := s[..i] + s[i + 1..];
    assert forall j :: 0 <= j < |t| ==> t[j] == if j < i then s[j] else s[j + 1];
    forall x ensures x in t <==> x in s && key(x) != key(s[i]) {
      if x in s && key(x) != key(s[i]) {
        var j :| 0 <= j < |s| && s[j] == x;
        if j < i { assert t[j] == x; } else { assert t[j - 1] == x; }
      }
    }
  }

  /** `s` is ordered by `key`, largest first (`sort({ key: -1 })`). */
  ghost predicate NonIncreasing<T>(s: seq<T>, key: T -> real) {
    forall i, j :: 0 <= i < j < |s| ==> key(s[i]) >= key(s[j])
  }

  function Insert<T>(x: T, s: seq<T>, key: T -> real): (r: seq<T>)
    requires NonIncreasing(s, key)
    ensures NonIncreasing(r, key)
    ensures multiset(r) == multiset(s) + multiset{x}
    ensures forall y :: y in r ==> y == x || y in s
    ensures |r| == |s| + 1
  {
    if s == [] then [x]
    else if key(s[0]) >= key(x) then
      var rest := Insert(x, s[1..], key);
      assert s == [s[0]] + s[1..];
      assert forall j :: 0 <= j < |rest| ==> key(s[0]) >= key(rest[j]) by {
        forall j | 0 <= j < |rest| ensures key(s[0]) >= key(rest[j]) {
          assert rest[j] in rest;
        }
      }
      [s[0]] + rest
    else
      [x] + s
  }

  /** A permutation of `s` ordered by `key`, largest first. */
  function SortDesc<T>(s: seq<T>, key: T -> real): (r: seq<T>)
    ensures NonIncreasing(r, key)
    ensures multiset(r) == multiset(s)
    ensures |r| == |s|
  {
    if s == [] then []
    else
      assert s == [s[0]] + s[1..];
      Insert(s[0], SortDesc(s[1..], key), key)
  }

  /** `skip(from).limit(size)`: at most `size` records starting at `from`. */
  function Window<T>(s: seq<T>, from: nat, size: nat): (r: seq<T>)
    ensures |r| == if from >= |s| then 0 else Min(size, |s| - from)
    ensures forall i :: 0 <= i < |r| ==> r[i] == s[from + i]
  {
    if from >= |s| then [] else s[from..Min(from + size, |s|)]
  }

  /** Whatever a sorted sequence leaves out of its first `k` elements ranks
      no higher than the last element kept. */
  lemma {:induction false} PrefixOfSortedIsTop<T>(s: seq<T>, key: T -> real, k: nat)
    requires NonIncreasing(s, key)
    requires 0 < k <= |s|
    ensures forall y :: y in multiset(s) - multiset(s[..k]) ==> key(y) <= key(s[k - 1])
  {
    assert s == s[..k] + s[k..];
    assert multiset(s) - multiset(s[..k]) == multiset(s[k..]);
    forall y | y in multiset(s[k..])
      ensures key(y) <= key(s[k - 1])
    {
      var j :| 0 <= j < |s[k..]| && s[k..][j] == y;
      assert s[k + j] == y;
    }
  }
}
