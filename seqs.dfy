/** Sequence helpers shared by the aggregation and chart modules: duplicate-free
    sequences, sums of real sequences, and the comparator sort that
    `Array.prototype.sort` performs on the chart labels. */
module Seqs {

  /** No element occurs twice. */
  predicate NoDup<T(==)>(s: seq<T>) {
    forall a, b :: 0 <= a < b < |s| ==> s[a] != s[b]
  }

  /** Sum of a sequence of reals, as `reduce((a, b) => a + b, 0)`. */
  function Sum(s: seq<real>): real {
    if s == [] then 0.0 else s[0] + Sum(s[1..])
  }

  /** Non-decreasing with respect to a numeric comparator key. */
  predicate SortedBy<T>(s: seq<T>, rank: T -> int) {
    forall a, b :: 0 <= a < b < |s| ==> rank(s[a]) <= rank(s[b])
  }

  /** Inserts `x` before the first element of larger rank (a stable
      insertion). */
  function InsertBy<T>(x: T, s: seq<T>, rank: T -> int): seq<T> {
    if s == [] then [x]
    else if rank(x) < rank(s[0]) then [x] + s
    else [s[0]] + InsertBy(x, s[1..], rank)
  }

  /** Inserting into a sorted duplicate-free sequence an element it lacks
      keeps it sorted and duplicate-free and adds exactly that element. */
  lemma {:induction false} InsertBySpec<T>(x: T, s: seq<T>, rank: T -> int)
    requires SortedBy(s, rank) && NoDup(s) && x !in s
    ensures |InsertBy(x, s, rank)| == |s| + 1
    ensures x in InsertBy(x, s, rank)
    ensures forall y :: y in s ==> y in InsertBy(x, s, rank)
    ensures forall y :: y in InsertBy(x, s, rank) ==> y == x || y in s
    ensures SortedBy(InsertBy(x, s, rank), rank) && NoDup(InsertBy(x, s, rank))
  {
    if s != [] && rank(x) >= rank(s[0]) {
      InsertBySpec(x, s[1..], rank);
      var t := InsertBy(x, s[1..], rank);
      assert forall k :: 0 <= k < |t| ==> rank(s[0]) <= rank(t[k]) by {
        forall k | 0 <= k < |t| ensures rank(s[0]) <= rank(t[k]) {
          assert t[k] in t;
          if t[k] != x {
            assert t[k] in s[1..];
            var m :| 0 <= m < |s| - 1 && s[1..][m] == t[k];
            assert s[m + 1] == t[k];
          }
        }
      }
      assert s[0] !in s[1..];
      assert s[0] !in t;
    }
  }

  /** Sorting with the comparator `(a, b) => rank(a) - rank(b)`, as an
      insertion sort. */
  function SortBy<T>(s: seq<T>, rank: T -> int): seq<T> {
    if s == [] then [] else InsertBy(s[0], SortBy(s[1..], rank), rank)
  }

  /** Sorting a duplicate-free sequence keeps its elements and puts them in
      non-decreasing rank. */
  lemma {:induction false} SortBySpec<T>(s: seq<T>, rank: T -> int)
    requires NoDup(s)
    ensures |SortBy(s, rank)| == |s|
    ensures forall y :: y in SortBy(s, rank) <==> y in s
    ensures SortedBy(SortBy(s, rank), rank) && NoDup(SortBy(s, rank))
  {
    if s != [] {
      assert NoDup(s[1..]);
      assert s[0] !in s[1..];
      SortBySpec(s[1..], rank);
      InsertBySpec(s[0], SortBy(s[1..], rank), rank);
    }
  }

  /** Sorting duplicate-free integers by their own value yields a strictly
      increasing sequence: the order `sort((a, b) => a - b)` gives. */
  lemma SortedIntsStrictlyIncrease(s: seq<int>, rank: int -> int)
    requires NoDup(s) && SortedBy(s, rank)
    requires forall x :: rank(x) == x
    ensures forall a, b :: 0 <= a < b < |s| ==> s[a] < s[b]
  {
    forall a, b | 0 <= a < b < |s| ensures s[a] < s[b] {
      assert rank(s[a]) <= rank(s[b]);
    }
  }
}
