/**
  The stable sort that JavaScript's `Array.prototype.sort` performs for a numeric comparator,
  with the facts every caller needs: it is a permutation, it is sorted, it leaves sorted input
  alone, it commutes with filtering, and for orders without ties the result depends only on the
  multiset of the input.
*/
module Sorting {
  import opened Filtering

  ghost predicate TotalPreorder<T(!new)>(leq: (T, T) -> bool) {
    && (forall x, y :: leq(x, y) || leq(y, x))
    && (forall x, y, z :: leq(x, y) && leq(y, z) ==> leq(x, z))
  }

  ghost predicate SortedBy<T>(s: seq<T>, leq: (T, T) -> bool) {
    forall i, j :: 0 <= i < j < |s| ==> leq(s[i], s[j])
  }

  /** Inserts `x` behind every element that is not greater, so equal elements keep their order. */
  function Insert<T>(s: seq<T>, x: T, leq: (T, T) -> bool): seq<T> {
    if s == [] || leq(s[|s| - 1], x) then s + [x]
    else Insert(s[..|s| - 1], x, leq) + [s[|s| - 1]]
  }

  function StableSort<T>(s: seq<T>, leq: (T, T) -> bool): seq<T> {
    if s == [] then [] else Insert(StableSort(s[..|s| - 1], leq), s[|s| - 1], leq)
  }

  lemma {:induction false} InsertIsPermutation<T>(s: seq<T>, x: T, leq: (T, T) -> bool)
    ensures multiset(Insert(s, x, leq)) == multiset(s) + multiset{x}
  {
    if s != [] {
      var front, last := s[..|s| - 1], s[|s| - 1];
      assert s == front + [last];
      InsertIsPermutation(front, x, leq);
    }
  }

  lemma {:induction false} InsertKeepsSorted<T(!new)>(s: seq<T>, x: T, leq: (T, T) -> bool)
    requires TotalPreorder(leq) && SortedBy(s, leq)
    ensures SortedBy(Insert(s, x, leq), leq)
  {
    if s == [] || leq(s[|s| - 1], x) {
      forall i | 0 <= i < |s| ensures leq(s[i], x) {
        assert leq(s[i], s[|s| - 1]) || i == |s| - 1;
      }
    } else {
      var front, last := s[..|s| - 1], s[|s| - 1];
      InsertKeepsSorted(front, x, leq);
      InsertIsPermutation(front, x, leq);
      var r := Insert(front, x, leq);
      forall i | 0 <= i < |r| ensures leq(r[i], last) {
        assert r[i] in multiset(r);
        assert r[i] == x || r[i] in front;
      }
    }
  }

  /** Where an insertion lands: behind its last equal or smaller element, before only greater ones. */
  lemma {:induction false} InsertSplits<T>(s: seq<T>, x: T, leq: (T, T) -> bool) returns (k: nat)
    ensures k <= |s| && Insert(s, x, leq) == s[..k] + ([x] + s[k..])
    ensures forall j :: k <= j < |s| ==> !leq(s[j], x)
  {
    if s == [] || leq(s[|s| - 1], x) {
      k := |s|;
      assert s[k..] == [];
    } else {
      var front, last := s[..|s| - 1], s[|s| - 1];
      k := InsertSplits(front, x, leq);
      assert s[..k] + ([x] + s[k..]) == (front[..k] + ([x] + front[k..])) + [last];
    }
  }

  /** The sort is a sorted permutation of its input. */
  lemma {:induction false} StableSortSorts<T(!new)>(s: seq<T>, leq: (T, T) -> bool)
    requires TotalPreorder(leq)
    ensures multiset(StableSort(s, leq)) == multiset(s)
    ensures |StableSort(s, leq)| == |s|
    ensures SortedBy(StableSort(s, leq), leq)
  {
    if s != [] {
      var front := s[..|s| - 1];
      assert s == front + [s[|s| - 1]];
      StableSortSorts(front, leq);
      InsertIsPermutation(StableSort(front, leq), s[|s| - 1], leq);
      InsertKeepsSorted(StableSort(front, leq), s[|s| - 1], leq);
    }
    assert |StableSort(s, leq)| == |multiset(StableSort(s, leq))|;
  }

  /** Sorted input comes back unchanged, ties included. */
  lemma {:induction false} StableSortOfSorted<T>(s: seq<T>, leq: (T, T) -> bool)
    requires SortedBy(s, leq)
    ensures StableSort(s, leq) == s
  {
    if s != [] {
      var front := s[..|s| - 1];
      assert SortedBy(front, leq);
      StableSortOfSorted(front, leq);
      assert front == [] || leq(front[|front| - 1], s[|s| - 1]);
      assert s == front + [s[|s| - 1]];
    }
  }

  // ---------------------------------------------------------------- sorting and filtering

  lemma InsertAppend<T>(s: seq<T>, last: T, x: T, leq: (T, T) -> bool)
    ensures Insert(s + [last], x, leq) == if leq(last, x) then s + [last] + [x] else Insert(s, x, leq) + [last]
  {
    assert (s + [last])[..|s|] == s;
  }

  lemma AppendToSmaller<T>(s: seq<T>, x: T, leq: (T, T) -> bool)
    requires forall y :: y in s ==> leq(y, x)
    ensures Insert(s, x, leq) == s + [x]
  {
  }

  lemma {:induction false} FilterOfInsert<T(!new)>(s: seq<T>, x: T, leq: (T, T) -> bool, keep: T -> bool)
    requires TotalPreorder(leq) && SortedBy(s, leq)
    ensures Filter(Insert(s, x, leq), keep) == if keep(x) then Insert(Filter(s, keep), x, leq) else Filter(s, keep)
  {
    if s == [] || leq(s[|s| - 1], x) {
      FilterAppend(s, x, keep);
      FilterElements(s, keep);
      forall y | y in Filter(s, keep) ensures leq(y, x) {
        var i :| 0 <= i < |s| && s[i] == y;
        assert i == |s| - 1 || leq(s[i], s[|s| - 1]);
      }
      AppendToSmaller(Filter(s, keep), x, leq);
    } else {
      var front, last := s[..|s| - 1], s[|s| - 1];
      assert s == front + [last];
      FilterOfInsert(front, x, leq, keep);
      FilterAppend(Insert(front, x, leq), last, keep);
      FilterAppend(front, last, keep);
      InsertAppend(Filter(front, keep), last, x, leq);
    }
  }

  lemma SortAppend<T>(s: seq<T>, x: T, leq: (T, T) -> bool)
    ensures StableSort(s + [x], leq) == Insert(StableSort(s, leq), x, leq)
  {
    assert (s + [x])[..|s|] == s;
  }

  /** Sorting what is kept is keeping what is sorted. */
  lemma {:induction false} SortOfFilter<T(!new)>(s: seq<T>, leq: (T, T) -> bool, keep: T -> bool)
    requires TotalPreorder(leq)
    ensures StableSort(Filter(s, keep), leq) == Filter(StableSort(s, leq), keep)
  {
    if s != [] {
      var front, last := s[..|s| - 1], s[|s| - 1];
      assert s == front + [last];
      SortOfFilter(front, leq, keep);
      StableSortSorts(front, leq);
      FilterOfInsert(StableSort(front, leq), last, leq, keep);
      FilterAppend(front, last, keep);
      SortAppend(Filter(front, keep), last, leq);
    }
  }

  ghost predicate TiesWith<T(!new)>(tied: T -> bool, x: T, leq: (T, T) -> bool) {
    forall y :: tied(y) <==> (leq(x, y) && leq(y, x))
  }

  /** The sort is stable: among the elements that tie with `x` the input order is kept. */
  lemma StableSortIsStable<T(!new)>(s: seq<T>, leq: (T, T) -> bool, x: T, tied: T -> bool)
    requires TotalPreorder(leq) && TiesWith(tied, x, leq)
    ensures Filter(StableSort(s, leq), tied) == Filter(s, tied)
  {
    SortOfFilter(s, leq, tied);
    FilterElements(s, tied);
    StableSortOfSorted(Filter(s, tied), leq);
  }

  ghost predicate NoTies<T>(s: seq<T>, leq: (T, T) -> bool) {
    forall x, y :: x in s && y in s && leq(x, y) && leq(y, x) ==> x == y
  }

  lemma LeastIsFirst<T>(t: seq<T>, x: T, leq: (T, T) -> bool)
    requires x in t && SortedBy(t, leq)
    ensures t[0] == x || leq(t[0], x)
  {
  }

  lemma TailMultiset<T>(s: seq<T>)
    requires s != []
    ensures multiset(s[1..]) == multiset(s) - multiset{s[0]}
  {
    assert s == [s[0]] + s[1..];
  }

  /** Where the first element of `s` sits in a permutation `t` of `s`. */
  lemma SplitAtHead<T>(s: seq<T>, t: seq<T>) returns (a: seq<T>, b: seq<T>)
    requires multiset(s) == multiset(t) && s != []
    ensures t == a + ([s[0]] + b)
    ensures multiset(s[1..]) == multiset(a + b)
  {
    assert s[0] in multiset(t);
    var j :| 0 <= j < |t| && t[j] == s[0];
    a, b := t[..j], t[j + 1..];
    assert t == a + ([s[0]] + b);
    assert multiset(t) == multiset(a) + (multiset{s[0]} + multiset(b));
    TailMultiset(s);
  }

  /** Two sorted permutations of each other are equal when no two distinct elements tie. */
  lemma {:induction false} SortedPermutationsAgree<T>(s: seq<T>, t: seq<T>, leq: (T, T) -> bool)
    requires multiset(s) == multiset(t)
    requires SortedBy(s, leq) && SortedBy(t, leq) && NoTies(s, leq)
    ensures s == t
  {
    assert |s| == |multiset(s)| == |multiset(t)| == |t|;
    if s != [] {
      assert s[0] in multiset(t) && t[0] in multiset(s);
      LeastIsFirst(t, s[0], leq);
      LeastIsFirst(s, t[0], leq);
      assert s[0] == t[0];
      TailMultiset(s);
      TailMultiset(t);
      SortedPermutationsAgree(s[1..], t[1..], leq);
      assert s == [s[0]] + s[1..] && t == [t[0]] + t[1..];
    }
  }
}
