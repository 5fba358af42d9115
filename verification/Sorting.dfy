/** Sorting by a lexicographic integer key, the shape of every `sort_by` in the program: stable, and
    unique as soon as the keys of distinct elements differ. Deduplication by key, which keeps the
    first of each group of neighbours, is here too, for the one place where it follows a sort. */
module Sorting {

  type Key = (int, int)

  predicate KeyLess(a: Key, b: Key) {
    a.0 < b.0 || (a.0 == b.0 && a.1 < b.1)
  }

  ghost predicate Ascending<T>(s: seq<T>, key: T -> Key) {
    forall i, j :: 0 <= i < j < |s| ==> !KeyLess(key(s[j]), key(s[i]))
  }

  ghost predicate StrictlyAscending<T>(s: seq<T>, key: T -> Key) {
    forall i, j :: 0 <= i < j < |s| ==> KeyLess(key(s[i]), key(s[j]))
  }

  ghost predicate DistinctKeys<T>(s: seq<T>, key: T -> Key) {
    forall i, j :: 0 <= i < j < |s| ==> key(s[i]) != key(s[j])
  }

  ghost function Elements<T>(s: seq<T>): set<T> {
    set x | x in s
  }

  /** Places `x` before the first element whose key is not smaller. */
  function InsertByKey<T>(x: T, s: seq<T>, key: T -> Key): (r: seq<T>) {
    if s == [] || !KeyLess(key(s[0]), key(x)) then
      [x] + s
    else
      [s[0]] + InsertByKey(x, s[1..], key)
  }

  lemma {:induction false} InsertAscending<T>(x: T, s: seq<T>, key: T -> Key)
    requires Ascending(s, key)
    ensures Ascending(InsertByKey(x, s, key), key)
    ensures forall y :: y in InsertByKey(x, s, key) ==> y == x || y in s
  {
    if s == [] || !KeyLess(key(s[0]), key(x)) {
    } else {
      InsertAscending(x, s[1..], key);
      var rest := InsertByKey(x, s[1..], key);
      forall j | 0 <= j < |rest| ensures !KeyLess(key(rest[j]), key(s[0])) {
        assert rest[j] in rest;
      }
    }
  }

  /** Stable insertion sort: an element goes before the equal keys that followed it. */
  function SortBy<T>(s: seq<T>, key: T -> Key): seq<T> {
    if s == [] then [] else InsertByKey(s[0], SortBy(s[1..], key), key)
  }

  lemma {:induction false} SortAscends<T>(s: seq<T>, key: T -> Key)
    ensures Ascending(SortBy(s, key), key)
  {
    if s != [] {
      SortAscends(s[1..], key);
      InsertAscending(s[0], SortBy(s[1..], key), key);
    }
  }

  lemma {:induction false} InsertPermutes<T>(x: T, s: seq<T>, key: T -> Key)
    ensures multiset(InsertByKey(x, s, key)) == multiset(s) + multiset{x}
  {
    if s == [] || !KeyLess(key(s[0]), key(x)) {
    } else {
      assert s == [s[0]] + s[1..];
      InsertPermutes(x, s[1..], key);
    }
  }

  lemma {:induction false} SortPermutes<T>(s: seq<T>, key: T -> Key)
    ensures multiset(SortBy(s, key)) == multiset(s)
  {
    if s != [] {
      assert s == [s[0]] + s[1..];
      SortPermutes(s[1..], key);
      InsertPermutes(s[0], SortBy(s[1..], key), key);
    }
  }

  lemma SortByMember<T>(s: seq<T>, key: T -> Key, x: T)
    ensures x in SortBy(s, key) <==> x in s
  {
    SortPermutes(s, key);
    assert x in SortBy(s, key) <==> x in multiset(SortBy(s, key));
    assert x in s <==> x in multiset(s);
  }

  lemma SortByLength<T>(s: seq<T>, key: T -> Key)
    ensures |SortBy(s, key)| == |s|
  {
    SortPermutes(s, key);
    assert |multiset(SortBy(s, key))| == |multiset(s)|;
  }

  lemma {:induction false} InsertStrict<T>(x: T, s: seq<T>, key: T -> Key)
    requires StrictlyAscending(s, key)
    requires forall y :: y in s ==> key(y) != key(x)
    ensures StrictlyAscending(InsertByKey(x, s, key), key)
    ensures forall y :: y in InsertByKey(x, s, key) ==> y == x || y in s
  {
    if s == [] || !KeyLess(key(s[0]), key(x)) {
    } else {
      InsertStrict(x, s[1..], key);
      var rest := InsertByKey(x, s[1..], key);
      forall j | 0 <= j < |rest| ensures KeyLess(key(s[0]), key(rest[j])) {
        assert rest[j] in rest;
      }
    }
  }

  /** Distinct keys make the sorted order strict. */
  lemma {:induction false} SortByStrict<T>(s: seq<T>, key: T -> Key)
    requires DistinctKeys(s, key)
    ensures StrictlyAscending(SortBy(s, key), key)
  {
    if s != [] {
      var tail := s[1..];
      assert DistinctKeys(tail, key) by {
        forall i, j | 0 <= i < j < |tail| ensures key(tail[i]) != key(tail[j]) {
          assert tail[i] == s[i+1] && tail[j] == s[j+1];
        }
      }
      SortByStrict(tail, key);
      forall y | y in SortBy(tail, key) ensures key(y) != key(s[0]) {
        SortByMember(tail, key, y);
        assert y in tail;
        var j :| 0 <= j < |tail| && tail[j] == y;
        assert tail[j] == s[j+1];
      }
      InsertStrict(s[0], SortBy(tail, key), key);
    }
  }

  lemma AnyMember<T>(s: seq<T>) returns (x: T)
    requires s != []
    ensures x in s
  {
    x := s[0];
  }

  /** A strictly sorted sequence is determined by its set of elements: this is what removes
      every trace of the input order from a canonical sort. */
  lemma {:induction false} StrictSortUnique<T>(a: seq<T>, b: seq<T>, key: T -> Key)
    requires StrictlyAscending(a, key) && StrictlyAscending(b, key)
    requires forall x :: x in a <==> x in b
    ensures a == b
  {
    if a == [] {
      if b != [] {
        var x := AnyMember(b);
        assert false;
      }
    } else {
      assert a[0] in b && b != [];
      assert b[0] in a;
      assert a[0] == b[0];
      forall x ensures x in a[1..] <==> x in b[1..] {
        if x in a[1..] { assert x in b; assert x != a[0]; }
        if x in b[1..] { assert x in a; assert x != b[0]; }
      }
      StrictSortUnique(a[1..], b[1..], key);
      assert a == [a[0]] + a[1..] && b == [b[0]] + b[1..];
    }
  }

  function Filter<T(!new)>(s: seq<T>, keep: T -> bool): (r: seq<T>)
    ensures forall x :: x in r <==> x in s && keep(x)
    ensures |r| <= |s|
  {
    if s == [] then [] else (if keep(s[0]) then [s[0]] else []) + Filter(s[1..], keep)
  }

  lemma {:induction false} FilterStrict<T(!new)>(s: seq<T>, keep: T -> bool, key: T -> Key)
    requires StrictlyAscending(s, key)
    ensures StrictlyAscending(Filter(s, keep), key)
  {
    if s != [] {
      FilterStrict(s[1..], keep, key);
      var rest := Filter(s[1..], keep);
      forall j | 0 <= j < |rest| ensures KeyLess(key(s[0]), key(rest[j])) {
        assert rest[j] in s[1..];
      }
    }
  }

  /** Keeps the first of every run of equal keys. */
  function Dedup<T>(s: seq<T>, key: T -> Key): seq<T> {
    if s == [] then
      []
    else
      var before, x := Dedup(s[..|s| - 1], key), s[|s| - 1];
      if before != [] && key(before[|before| - 1]) == key(x) then before else before + [x]
  }

  lemma {:induction false} DedupMember<T>(s: seq<T>, key: T -> Key, x: T)
    requires x in Dedup(s, key)
    ensures x in s
  {
    var n := |s| - 1;
    if x in Dedup(s[..n], key) {
      DedupMember(s[..n], key, x);
    }
  }

  /** Deduplicating a sorted sequence leaves its keys strictly ascending. */
  lemma {:induction false} DedupStrict<T>(s: seq<T>, key: T -> Key)
    requires Ascending(s, key)
    ensures StrictlyAscending(Dedup(s, key), key)
  {
    if s != [] {
      var n := |s| - 1;
      var before := Dedup(s[..n], key);
      DedupStrict(s[..n], key);
      if n > 0 {
        var last := key(before[|before| - 1]);
        assert last == key(s[n-1]);
        assert !KeyLess(key(s[n]), last);
        forall i | 0 <= i < |before| && last != key(s[n]) ensures KeyLess(key(before[i]), key(s[n])) {
          assert i < |before| - 1 ==> KeyLess(key(before[i]), last);
        }
      }
    }
  }

  lemma {:induction false} DedupKeepsKeys<T>(s: seq<T>, key: T -> Key, i: nat) returns (j: nat)
    requires i < |s|
    ensures j < |Dedup(s, key)| && key(Dedup(s, key)[j]) == key(s[i])
  {
    var n := |s| - 1;
    var before := Dedup(s[..n], key);
    if i < n {
      j := DedupKeepsKeys(s[..n], key, i);
    } else {
      j := |Dedup(s, key)| - 1;
    }
  }
}
