/** Keeping the elements of a sequence that satisfy a predicate, as `Array.prototype.filter` and a WHERE clause do. */
module Filtering {
  function Filter<T>(s: seq<T>, keep: T -> bool): seq<T> {
    if s == [] then []
    else if keep(s[0]) then [s[0]] + Filter(s[1..], keep)
    else Filter(s[1..], keep)
  }

  lemma {:induction false} FilterConcat<T>(a: seq<T>, b: seq<T>, keep: T -> bool)
    ensures Filter(a + b, keep) == Filter(a, keep) + Filter(b, keep)
  {
    if a == [] {
      assert a + b == b;
    } else {
      assert (a + b)[1..] == a[1..] + b;
      FilterConcat(a[1..], b, keep);
    }
  }

  lemma FilterAppend<T>(s: seq<T>, x: T, keep: T -> bool)
    ensures Filter(s + [x], keep) == if keep(x) then Filter(s, keep) + [x] else Filter(s, keep)
  {
    FilterConcat(s, [x], keep);
    assert Filter([x][1..], keep) == [];
  }

  lemma {:induction false} FilterElements<T>(s: seq<T>, keep: T -> bool)
    ensures forall x :: x in Filter(s, keep) <==> x in s && keep(x)
    ensures forall i :: 0 <= i < |Filter(s, keep)| ==> Filter(s, keep)[i] in s && keep(Filter(s, keep)[i])
  {
    if s != [] {
      FilterElements(s[1..], keep);
      assert s == [s[0]] + s[1..];
    }
  }

  lemma {:induction false} FilterAgrees<T>(s: seq<T>, p: T -> bool, q: T -> bool)
    requires forall i :: 0 <= i < |s| ==> p(s[i]) == q(s[i])
    ensures Filter(s, p) == Filter(s, q)
  {
    if s != [] {
      FilterAgrees(s[1..], p, q);
    }
  }

  lemma {:induction false} FilterKeepsAll<T>(s: seq<T>, keep: T -> bool)
    requires forall i :: 0 <= i < |s| ==> keep(s[i])
    ensures Filter(s, keep) == s
  {
    if s != [] {
      FilterKeepsAll(s[1..], keep);
    }
  }

  lemma {:induction false} FilterDropsAll<T>(s: seq<T>, keep: T -> bool)
    requires forall i :: 0 <= i < |s| ==> !keep(s[i])
    ensures Filter(s, keep) == []
  {
    if s != [] {
      FilterDropsAll(s[1..], keep);
    }
  }

  lemma {:induction false} FilterTwice<T>(s: seq<T>, p: T -> bool, q: T -> bool, both: T -> bool)
    requires forall i :: 0 <= i < |s| ==> (both(s[i]) <==> p(s[i]) && q(s[i]))
    ensures Filter(Filter(s, p), q) == Filter(s, both)
  {
    if s != [] {
      FilterTwice(s[1..], p, q, both);
    }
  }

  /** What holds of every two elements in order holds of every two kept ones. */
  lemma {:induction false} FilterKeepsPairs<T>(s: seq<T>, keep: T -> bool, related: (T, T) -> bool)
    requires forall i, j :: 0 <= i < j < |s| ==> related(s[i], s[j])
    ensures forall i, j :: 0 <= i < j < |Filter(s, keep)| ==> related(Filter(s, keep)[i], Filter(s, keep)[j])
  {
    if s != [] {
      var tail := Filter(s[1..], keep);
      FilterKeepsPairs(s[1..], keep, related);
      FilterElements(s[1..], keep);
      forall j | 0 <= j < |tail| ensures related(s[0], tail[j]) {
        var k :| 0 <= k < |s[1..]| && s[1..][k] == tail[j];
      }
    }
  }

  /** Replacing an element moves the number of kept ones by what the two elements count. */
  lemma {:induction false} FilterSizeOfUpdate<T>(s: seq<T>, i: nat, x: T, keep: T -> bool)
    requires i < |s|
    ensures |Filter(s[i := x], keep)| ==
      |Filter(s, keep)| - (if keep(s[i]) then 1 else 0) + (if keep(x) then 1 else 0)
  {
    if i == 0 {
      assert s[i := x][1..] == s[1..];
    } else {
      assert s[i := x][1..] == s[1..][i - 1 := x];
      FilterSizeOfUpdate(s[1..], i - 1, x, keep);
    }
  }
}
