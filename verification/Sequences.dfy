/** Sums over sequences and filters of sequences, with the lemmas for changing one element
    or adding one at the end. */
module Sequences {

  function Sum<T>(s: seq<T>, f: T -> nat): nat {
    if s == [] then 0 else Sum(s[..|s| - 1], f) + f(s[|s| - 1])
  }

  lemma SumSnoc<T>(s: seq<T>, x: T, f: T -> nat)
    ensures Sum(s + [x], f) == Sum(s, f) + f(x)
  {
    assert (s + [x])[..|s|] == s;
  }

  lemma {:induction false} SumUpdate<T>(s: seq<T>, i: nat, x: T, f: T -> nat)
    requires i < |s|
    ensures Sum(s[i := x], f) == Sum(s, f) - f(s[i]) + f(x)
    ensures f(s[i]) <= Sum(s, f)
  {
    var last := |s| - 1;
    if i == last {
      assert s[i := x][..last] == s[..last];
    } else {
      SumUpdate(s[..last], i, x, f);
      assert s[i := x][..last] == s[..last][i := x];
    }
  }

  /** A sum is zero exactly when every summand is. */
  lemma {:induction false} SumZero<T>(s: seq<T>, f: T -> nat)
    ensures Sum(s, f) == 0 <==> forall i :: 0 <= i < |s| ==> f(s[i]) == 0
  {
    if s != [] {
      SumZero(s[..|s| - 1], f);
    }
  }

  lemma {:induction false} SumPointwise<T>(s: seq<T>, t: seq<T>, f: T -> nat)
    requires |s| == |t| && forall i :: 0 <= i < |s| ==> f(s[i]) == f(t[i])
    ensures Sum(s, f) == Sum(t, f)
  {
    if s != [] {
      SumPointwise(s[..|s| - 1], t[..|t| - 1], f);
    }
  }

  /** Two positions with positive summands add up to a sum of at least two. */
  lemma {:induction false} SumOfTwo<T>(s: seq<T>, i: nat, j: nat, f: T -> nat)
    requires i < j < |s| && f(s[i]) > 0 && f(s[j]) > 0
    ensures Sum(s, f) >= 2
  {
    if j == |s| - 1 {
      SumZero(s[..j], f);
      assert s[..j][i] == s[i];
    } else {
      SumOfTwo(s[..|s| - 1], i, j, f);
    }
  }

  function Filter<T>(s: seq<T>, p: T -> bool): seq<T> {
    if s == [] then []
    else
      var rest := Filter(s[..|s| - 1], p);
      if p(s[|s| - 1]) then rest + [s[|s| - 1]] else rest
  }

  lemma FilterSnoc<T>(s: seq<T>, x: T, p: T -> bool)
    ensures Filter(s + [x], p) == Filter(s, p) + if p(x) then [x] else []
  {
    assert (s + [x])[..|s|] == s;
  }

  /** The form loops use: one more element of a prefix. */
  lemma FilterPrefix<T>(s: seq<T>, i: nat, p: T -> bool)
    requires i < |s|
    ensures Filter(s[..i + 1], p) == Filter(s[..i], p) + if p(s[i]) then [s[i]] else []
  {
    assert s[..i + 1] == s[..i] + [s[i]];
    FilterSnoc(s[..i], s[i], p);
  }

  lemma {:induction false} FilterMembers<T>(s: seq<T>, p: T -> bool, x: T)
    ensures x in Filter(s, p) <==> x in s && p(x)
  {
    if s != [] {
      FilterMembers(s[..|s| - 1], p, x);
    }
  }

  lemma {:induction false} FilterSum<T>(s: seq<T>, p: T -> bool, f: T -> nat)
    ensures Sum(Filter(s, p), f) <= Sum(s, f)
  {
    if s != [] {
      var last := |s| - 1;
      FilterSum(s[..last], p, f);
      if p(s[last]) {
        SumSnoc(Filter(s[..last], p), s[last], f);
      }
    }
  }
}
