/** Python's `sorted` on a list of numbers, as an insertion sort, with the
    fact that a sorted permutation is unique: any statement about `sorted`
    therefore holds whatever algorithm produces it. */
module Sorting {

  predicate Sorted(s: seq<real>) {
    forall i, j :: 0 <= i < j < |s| ==> s[i] <= s[j]
  }

  function Insert(x: real, s: seq<real>): (r: seq<real>)
    requires Sorted(s)
    ensures Sorted(r) && |r| == |s| + 1
    ensures r[0] == x || (s != [] && r[0] == s[0])
  {
    if s == [] || x <= s[0] then [x] + s
    else
      var t := Insert(x, s[1..]);
      assert s[0] <= t[0];
      [s[0]] + t
  }

  /** Inserting adds exactly the one value. */
  lemma {:induction false} InsertMultiset(x: real, s: seq<real>)
    requires Sorted(s)
    ensures multiset(Insert(x, s)) == multiset(s) + multiset{x}
  {
    if s != [] && x > s[0] {
      InsertMultiset(x, s[1..]);
      assert s == [s[0]] + s[1..];
    }
  }

  /** `sorted(s)`: ascending (and, by SortRealsMultiset, the same values with
      the same multiplicities). */
  function SortReals(s: seq<real>): (r: seq<real>)
    ensures Sorted(r) && |r| == |s|
  {
    if s == [] then [] else Insert(s[0], SortReals(s[1..]))
  }

  /** Sorting permutes: the same values with the same multiplicities. */
  lemma {:induction false} SortRealsMultiset(s: seq<real>)
    ensures multiset(SortReals(s)) == multiset(s)
  {
    if s != [] {
      var t := SortReals(s[1..]);
      SortRealsMultiset(s[1..]);
      InsertMultiset(s[0], t);
      MultisetCons(s);
      assert SortReals(s) == Insert(s[0], t);
    }
  }

  lemma MultisetCons(s: seq<real>)
    requires s != []
    ensures multiset(s) == multiset{s[0]} + multiset(s[1..])
  {
    assert s == [s[0]] + s[1..];
  }

  lemma SortedTail(s: seq<real>)
    requires s != [] && Sorted(s)
    ensures Sorted(s[1..])
  {
  }

  lemma SortedHeadIsMinimum(a: seq<real>, x: real)
    requires Sorted(a) && x in multiset(a)
    ensures a[0] <= x
  {
    var i :| 0 <= i < |a| && a[i] == x;
  }

  /** Two sorted sequences with the same elements start with the same value. */
  lemma SortedSameHead(a: seq<real>, b: seq<real>)
    requires a != [] && b != [] && Sorted(a) && Sorted(b) && multiset(a) == multiset(b)
    ensures a[0] == b[0]
  {
    assert a[0] in multiset(b) && b[0] in multiset(a);
    SortedHeadIsMinimum(b, a[0]);
    SortedHeadIsMinimum(a, b[0]);
  }

  /** Removing the same first value from equal multisets leaves equal multisets. */
  lemma SameTails(a: seq<real>, b: seq<real>)
    requires a != [] && b != [] && a[0] == b[0] && multiset(a) == multiset(b)
    ensures multiset(a[1..]) == multiset(b[1..])
  {
    MultisetCons(a);
    MultisetCons(b);
    assert multiset(a[1..]) == multiset(a) - multiset{a[0]};
    assert multiset(b[1..]) == multiset(b) - multiset{b[0]};
  }

  lemma SameLength(a: seq<real>, b: seq<real>)
    requires multiset(a) == multiset(b)
    ensures |a| == |b|
  {
    assert |a| == |multiset(a)| && |b| == |multiset(b)|;
  }

  /** Two sorted sequences with the same elements are equal. */
  lemma {:induction false} SortedUnique(a: seq<real>, b: seq<real>)
    requires Sorted(a) && Sorted(b) && multiset(a) == multiset(b)
    ensures a == b
  {
    SameLength(a, b);
    if a != [] {
      SortedSameHead(a, b);
      SameTails(a, b);
      SortedTail(a);
      SortedTail(b);
      SortedUnique(a[1..], b[1..]);
      assert a == [a[0]] + a[1..] && b == [b[0]] + b[1..];
    }
  }

  /** Sorting a permutation of a sorted sequence gives that sequence. */
  lemma {:induction false} SortedPermutation(raw: seq<real>, sorted: seq<real>)
    requires Sorted(sorted) && multiset(raw) == multiset(sorted)
    ensures SortReals(raw) == sorted
  {
    SortRealsMultiset(raw);
    SortedUnique(SortReals(raw), sorted);
  }
}
