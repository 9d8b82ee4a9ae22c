/**
  The comparator sorts of the source: `Array.prototype.sort` with a numeric
  comparator such as `(a, b) => b - a` (descending) or `(a, b) => a - b`
  (ascending). JavaScript's sort is stable, so this is a stable insertion sort
  on an integer rank.
 */
module Sorting {

  datatype Order = Descending | Ascending

  /** `x` goes strictly before `y` under the comparator. */
  predicate Precedes(o: Order, x: int, y: int)
  {
    if o == Descending then x > y else x < y
  }

  ghost predicate SortedBy<T>(s: seq<T>, rank: T -> int, o: Order)
  {
    forall i, j :: 0 <= i < j < |s| ==> !Precedes(o, rank(s[j]), rank(s[i]))
  }

  ghost predicate Distinct<T>(s: seq<T>)
  {
    forall i, j :: 0 <= i < j < |s| ==> s[i] != s[j]
  }

  /** Inserts `x` in front of the first element that does not go strictly before it. */
  function Insert<T>(x: T, s: seq<T>, rank: T -> int, o: Order): (r: seq<T>)
    requires SortedBy(s, rank, o)
    ensures SortedBy(r, rank, o)
    ensures multiset(r) == multiset(s) + multiset{x}
  {
    if s == [] then [x]
    else if Precedes(o, rank(s[0]), rank(x)) then
      var tail := Insert(x, s[1..], rank, o);
      InsertKeepsHead(x, s, tail, rank, o);
      assert s == [s[0]] + s[1..];
      [s[0]] + tail
    else
      [x] + s
  }

  lemma InsertKeepsHead<T>(x: T, s: seq<T>, tail: seq<T>, rank: T -> int, o: Order)
    requires s != [] && SortedBy(s, rank, o) && SortedBy(tail, rank, o)
    requires Precedes(o, rank(s[0]), rank(x))
    requires multiset(tail) == multiset(s[1..]) + multiset{x}
    ensures SortedBy([s[0]] + tail, rank, o)
  {
    forall y | y in tail ensures !Precedes(o, rank(y), rank(s[0])) {
      assert y in multiset(tail);
      if y != x {
        assert y in multiset(s[1..]);
        var k :| 0 <= k < |s[1..]| && s[1..][k] == y;
        assert s[k + 1] == y;
      }
    }
    var r := [s[0]] + tail;
    forall i, j | 0 <= i < j < |r| ensures !Precedes(o, rank(r[j]), rank(r[i])) {
      if i == 0 {
        assert r[j] == tail[j - 1];
        assert r[j] in tail;
      } else {
        assert r[i] == tail[i - 1] && r[j] == tail[j - 1];
      }
    }
  }

  /** The stable sort of `s` by `rank` in order `o`. */
  function Sort<T>(s: seq<T>, rank: T -> int, o: Order): (r: seq<T>)
    ensures SortedBy(r, rank, o)
    ensures multiset(r) == multiset(s)
  {
    if s == [] then []
    else
      assert s == [s[0]] + s[1..];
      Insert(s[0], Sort(s[1..], rank, o), rank, o)
  }

  /** A permutation of a duplicate-free sequence is duplicate-free. */
  lemma {:induction false} PermutationDistinct<T>(a: seq<T>, b: seq<T>)
    requires multiset(a) == multiset(b) && Distinct(a)
    ensures Distinct(b)
  {
    forall i, j | 0 <= i < j < |b| ensures b[i] != b[j] {
      if b[i] == b[j] {
        var x := b[i];
        assert b == b[..i] + [x] + b[i + 1..j] + [x] + b[j + 1..];
        assert multiset(b)[x] >= 2;
        DistinctCount(a, x);
      }
    }
  }

  lemma {:induction false} DistinctCount<T>(a: seq<T>, x: T)
    requires Distinct(a)
    ensures multiset(a)[x] <= 1
  {
    if a != [] {
      assert a == [a[0]] + a[1..];
      DistinctCount(a[1..], x);
      if a[0] == x {
        assert x !in a[1..];
      }
    }
  }

  /** Removing the element at `j` removes one occurrence of it from the multiset. */
  lemma RemoveAt<T>(s: seq<T>, j: nat)
    requires j < |s|
    ensures multiset(s[..j] + s[j + 1..]) == multiset(s) - multiset{s[j]}
  {
    assert s == s[..j] + [s[j]] + s[j + 1..];
    assert multiset(s) == multiset(s[..j]) + multiset{s[j]} + multiset(s[j + 1..]);
  }
}
