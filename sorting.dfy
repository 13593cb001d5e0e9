/** What std::sort leaves in a vector of rolls: the same values in
    descending order (with std::greater) or ascending order (with the default
    operator<). Any two orderings of the same values agree, so one
    definition of the sorted result stands for whatever algorithm the
    library uses. */
module Sorting {

  /** `a` may stand before `b` in the chosen order. */
  predicate InOrder(a: int, b: int, descending: bool) {
    if descending then a >= b else a <= b
  }

  predicate Ordered(s: seq<int>, descending: bool) {
    forall i, j :: 0 <= i < j < |s| ==> InOrder(s[i], s[j], descending)
  }

  /** `s` with `x` placed in front of the first element it may precede. */
  function Insert(x: int, s: seq<int>, descending: bool): (r: seq<int>)
    requires Ordered(s, descending)
    ensures |r| == |s| + 1
    ensures Ordered(r, descending)
    ensures multiset(r) == multiset(s) + multiset{x}
  {
    if s == [] || InOrder(x, s[0], descending) then [x] + s
    else
      var tail := Insert(x, s[1..], descending);
      assert s == [s[0]] + s[1..];
      HeadPrecedes(s[0], x, s[1..], tail, descending);
      [s[0]] + tail
  }

  /** An element that may precede `x` and every element of `rest` may
      precede every element of a sequence holding exactly those values. */
  lemma HeadPrecedes(y: int, x: int, rest: seq<int>, tail: seq<int>, descending: bool)
    requires InOrder(y, x, descending)
    requires forall i :: 0 <= i < |rest| ==> InOrder(y, rest[i], descending)
    requires multiset(tail) == multiset(rest) + multiset{x}
    ensures forall j :: 0 <= j < |tail| ==> InOrder(y, tail[j], descending)
  {
    forall j | 0 <= j < |tail|
      ensures InOrder(y, tail[j], descending)
    {
      assert tail[j] in multiset(tail);
      if tail[j] != x {
        assert tail[j] in rest;
      }
    }
  }

  /** The result of std::sort on `s`. */
  function Sort(s: seq<int>, descending: bool): (r: seq<int>)
    ensures |r| == |s|
    ensures Ordered(r, descending)
    ensures multiset(r) == multiset(s)
  {
    if s == [] then []
    else
      assert s == [s[0]] + s[1..];
      Insert(s[0], Sort(s[1..], descending), descending)
  }

  /** Two orderings of the same values are the same sequence: the sorted
      result does not depend on how the sort proceeds. */
  lemma {:induction false} SortedPermutationUnique(a: seq<int>, b: seq<int>, descending: bool)
    requires Ordered(a, descending) && Ordered(b, descending)
    requires multiset(a) == multiset(b)
    ensures a == b
    decreases |a|
  {
    if a != [] {
      HeadsAgree(a, b, descending);
      TailsPermuted(a, b);
      SortedPermutationUnique(a[1..], b[1..], descending);
      assert a == [a[0]] + a[1..] && b == [b[0]] + b[1..];
    }
  }

  /** Two non-empty orderings of the same values start with the same value. */
  lemma HeadsAgree(a: seq<int>, b: seq<int>, descending: bool)
    requires Ordered(a, descending) && Ordered(b, descending)
    requires multiset(a) == multiset(b) && a != []
    ensures |b| == |a| && b[0] == a[0]
  {
    assert |b| == |multiset(b)| == |a|;
    var x, y := a[0], b[0];
    assert x in multiset(b) && y in multiset(a);
    var i :| 0 <= i < |b| && b[i] == x;
    var j :| 0 <= j < |a| && a[j] == y;
    assert InOrder(y, x, descending) by {
      if i > 0 {
        assert InOrder(b[0], b[i], descending);
      }
    }
    assert InOrder(x, y, descending) by {
      if j > 0 {
        assert InOrder(a[0], a[j], descending);
      }
    }
  }

  /** Removing the same first value from the same values leaves the same values. */
  lemma TailsPermuted(a: seq<int>, b: seq<int>)
    requires a != [] && b != [] && a[0] == b[0]
    requires multiset(a) == multiset(b)
    ensures multiset(a[1..]) == multiset(b[1..])
  {
    assert a == [a[0]] + a[1..] && b == [b[0]] + b[1..];
    assert multiset(a[1..]) == multiset(a) - multiset{a[0]};
    assert multiset(b[1..]) == multiset(b) - multiset{b[0]};
  }
}
