/** std::sort on vectors of ranges, as far as its callers rely on it: a sorted permutation. */
module Sorting {
  import opened CallTraces

  type Order = (ProfileRange, ProfileRange) -> bool

  /** A strict weak order, as std::sort and std::lower_bound demand of their comparators. */
  ghost predicate StrictWeak(less: Order) {
    && (forall a, b :: less(a, b) ==> !less(b, a))
    && (forall a, b, c :: !less(b, a) && !less(c, b) ==> !less(c, a))
  }

  ghost predicate SortedBy(s: seq<ProfileRange>, less: Order) {
    forall i, j | 0 <= i < j < |s| :: !less(s[j], s[i])
  }

  method Sort(s: seq<ProfileRange>, less: Order) returns (r: seq<ProfileRange>)
    requires StrictWeak(less)
    ensures SortedBy(r, less) && multiset(r) == multiset(s)
  {
    r := [];
    for i := 0 to |s|
      invariant SortedBy(r, less) && multiset(r) == multiset(s[..i])
    {
      r := InsertSorted(r, s[i], less);
      assert s[..i+1] == s[..i] + [s[i]];
    }
    assert s[..|s|] == s;
  }

  method InsertSorted(s: seq<ProfileRange>, x: ProfileRange, less: Order) returns (r: seq<ProfileRange>)
    requires StrictWeak(less) && SortedBy(s, less)
    ensures SortedBy(r, less) && multiset(r) == multiset(s) + multiset{x}
  {
    var at: nat := |s|;
    while at > 0 && less(x, s[at-1])
      invariant at <= |s| && forall k | at <= k < |s| :: less(x, s[k])
    {
      at := at - 1;
    }
    r := s[..at] + [x] + s[at..];
    assert s == s[..at] + s[at..];
    InsertedSorted(s, at, x, less);
  }

  lemma InsertedSorted(s: seq<ProfileRange>, at: nat, x: ProfileRange, less: Order)
    requires StrictWeak(less) && SortedBy(s, less) && at <= |s|
    requires (forall k | at <= k < |s| :: less(x, s[k])) && (at > 0 ==> !less(x, s[at-1]))
    ensures SortedBy(s[..at] + [x] + s[at..], less)
  {
    var r := s[..at] + [x] + s[at..];
    assert forall k | 0 <= k < |r| :: r[k] == if k < at then s[k] else if k == at then x else s[k-1];
    forall k | 0 <= k < at ensures !less(x, s[k]) {
      assert k == at - 1 || !less(s[at-1], s[k]);
    }
  }

  /** The first position that is not before `x` (std::lower_bound). */
  method LowerBound(s: seq<ProfileRange>, x: ProfileRange, less: Order) returns (first: nat)
    requires StrictWeak(less) && SortedBy(s, less)
    ensures first <= |s|
    ensures forall k | 0 <= k < first :: less(s[k], x)
    ensures forall k | first <= k < |s| :: !less(s[k], x)
  {
    first := 0;
    var len: nat := |s|;
    while len > 0
      invariant first + len <= |s|
      invariant forall k | 0 <= k < first :: less(s[k], x)
      invariant forall k | first + len <= k < |s| :: !less(s[k], x)
    {
      var half := len / 2;
      if less(s[first + half], x) {
        forall k | 0 <= k < first + half ensures less(s[k], x) { BelowToo(s[k], s[first + half], x, less); }
        first, len := first + half + 1, len - half - 1;
      } else {
        len := half;
      }
    }
  }

  /** The first position that `x` is before (std::upper_bound). */
  method UpperBound(s: seq<ProfileRange>, x: ProfileRange, less: Order) returns (first: nat)
    requires StrictWeak(less) && SortedBy(s, less)
    ensures first <= |s|
    ensures forall k | 0 <= k < first :: !less(x, s[k])
    ensures forall k | first <= k < |s| :: less(x, s[k])
  {
    first := 0;
    var len: nat := |s|;
    while len > 0
      invariant first + len <= |s|
      invariant forall k | 0 <= k < first :: !less(x, s[k])
      invariant forall k | first + len <= k < |s| :: less(x, s[k])
    {
      var half := len / 2;
      if !less(x, s[first + half]) {
        first, len := first + half + 1, len - half - 1;
      } else {
        len := half;
        forall k | first + half <= k < |s| ensures less(x, s[k]) { AboveToo(x, s[first + half], s[k], less); }
      }
    }
  }

  lemma BelowToo(a: ProfileRange, b: ProfileRange, x: ProfileRange, less: Order)
    requires StrictWeak(less) && !less(b, a) && less(b, x)
    ensures less(a, x)
  {
    assert less(a, x) || !less(b, x);
  }

  lemma AboveToo(x: ProfileRange, a: ProfileRange, b: ProfileRange, less: Order)
    requires StrictWeak(less) && !less(b, a) && less(x, a)
    ensures less(x, b)
  {}
}
