/** Parenthesis matching on runs of calls and returns: which calls are open when, that the ranges of
    calls nest, and that depth is the number of enclosing ranges. */
module TraceLaws {
  import opened Types
  import opened CallTraces

  /** The positions of the calls that have not returned, outermost first. */
  ghost function Open(tr: seq<Event>): seq<nat> {
    if tr == [] then []
    else
      var open := Open(tr[..|tr|-1]);
      if tr[|tr|-1].Called? then open + [|tr|-1]
      else if open == [] then [] else open[..|open|-1]
  }

  lemma HeightStep(tr: seq<Event>, k: nat)
    requires k < |tr|
    ensures Height(tr[..k+1]) == Height(tr[..k]) + (if tr[k].Called? then 1 else -1)
  {
    assert tr[..k+1][..k] == tr[..k];
  }

  lemma OpenStep(tr: seq<Event>, k: nat)
    requires k < |tr|
    ensures Open(tr[..k+1]) ==
      if tr[k].Called? then Open(tr[..k]) + [k]
      else if Open(tr[..k]) == [] then [] else Open(tr[..k])[..|Open(tr[..k])|-1]
  {
    assert tr[..k+1][..k] == tr[..k];
  }

  /** `i` is the m-th open call after `n` events: it was made at height `m` and the height has stayed above since. */
  ghost predicate OpenSince(tr: seq<Event>, n: nat, i: nat, m: nat)
    requires n <= |tr|
  {
    && i < n && tr[i].Called? && Height(tr[..i]) == m
    && forall k | i < k <= n :: Height(tr[..k]) > m
  }

  /** `open` lists the calls that are open after `n` events; all others have returned. */
  ghost predicate Described(tr: seq<Event>, n: nat, open: seq<nat>)
    requires n <= |tr|
  {
    && |open| == Height(tr[..n])
    && (forall m | 0 <= m < |open| :: OpenSince(tr, n, open[m], m))
    && (forall l, m | 0 <= l < m < |open| :: open[l] < open[m])
    && (forall i | 0 <= i < n && tr[i].Called? && i !in open :: HasReturned(tr, n, i))
  }

  ghost predicate HasReturned(tr: seq<Event>, n: nat, i: nat) {
    exists j: nat | j < n :: Matches(tr, i, j)
  }

  lemma {:induction false} OpenIs(tr: seq<Event>, n: nat)
    requires Balanced(tr) && n <= |tr|
    ensures Described(tr, n, Open(tr[..n]))
  {
    if n == 0 {
      assert tr[..0] == [];
    } else {
      OpenIs(tr, n - 1);
      OpenGoesOn(tr, n - 1);
    }
  }

  lemma OpenGoesOn(tr: seq<Event>, n: nat)
    requires Balanced(tr) && n < |tr| && Described(tr, n, Open(tr[..n]))
    ensures Described(tr, n + 1, Open(tr[..n+1]))
  {
    OpenStep(tr, n);
    if tr[n].Called? { OpenAfterCall(tr, n, Open(tr[..n])); } else { OpenAfterReturn(tr, n, Open(tr[..n])); }
  }

  lemma OpenAfterCall(tr: seq<Event>, n: nat, open: seq<nat>)
    requires n < |tr| && Described(tr, n, open) && tr[n].Called?
    ensures Described(tr, n + 1, open + [n])
  {
    HeightStep(tr, n);
    forall i | 0 <= i < n + 1 && tr[i].Called? && i !in open + [n] ensures HasReturned(tr, n + 1, i) {
      assert i != n by { assert (open + [n])[|open|] == n; }
      assert HasReturned(tr, n, i);
      var j: nat :| j < n && Matches(tr, i, j);
    }
    forall m | 0 <= m <= |open| ensures OpenSince(tr, n + 1, (open + [n])[m], m) {
      if m < |open| { assert OpenSince(tr, n, open[m], m); }
    }
  }

  lemma OpenAfterReturn(tr: seq<Event>, n: nat, open: seq<nat>)
    requires Balanced(tr) && n < |tr| && Described(tr, n, open) && tr[n].Returned?
    ensures open != [] && Described(tr, n + 1, open[..|open|-1])
  {
    HeightStep(tr, n);
    TopMatches(tr, n, open);
    var left := open[..|open|-1];
    forall m | 0 <= m < |left| ensures OpenSince(tr, n + 1, left[m], m) { assert OpenSince(tr, n, open[m], m); }
    forall i | 0 <= i < n + 1 && tr[i].Called? && i !in left ensures HasReturned(tr, n + 1, i) {
      ClosedAfterReturn(tr, n, open, i);
    }
  }

  /** A return ends the call opened last. */
  lemma TopMatches(tr: seq<Event>, n: nat, open: seq<nat>)
    requires Balanced(tr) && n < |tr| && Described(tr, n, open) && tr[n].Returned?
    ensures open != [] && Matches(tr, open[|open|-1], n)
  {
    HeightStep(tr, n);
    assert Height(tr[..n+1]) >= 0;
    assert OpenSince(tr, n, open[|open|-1], |open| - 1);
  }

  lemma ClosedAfterReturn(tr: seq<Event>, n: nat, open: seq<nat>, i: nat)
    requires Balanced(tr) && n < |tr| && Described(tr, n, open) && tr[n].Returned? && i < n && tr[i].Called?
    requires open != [] && i !in open[..|open|-1]
    ensures HasReturned(tr, n + 1, i)
  {
    if i in open {
      TopMatches(tr, n, open);
      assert open == open[..|open|-1] + [open[|open|-1]];
      assert Matches(tr, i, n);
    } else {
      assert HasReturned(tr, n, i);
      var j: nat :| j < n && Matches(tr, i, j);
    }
  }

  /** In a balanced run every return ends the call opened last. */
  lemma ReturnEndsTop(tr: seq<Event>, n: nat)
    requires Balanced(tr) && n < |tr| && tr[n].Returned?
    ensures Open(tr[..n]) != [] && Matches(tr, Open(tr[..n])[|Open(tr[..n])|-1], n)
  {
    OpenIs(tr, n);
    TopMatches(tr, n, Open(tr[..n]));
  }

  lemma OpenIsCalled(tr: seq<Event>, n: nat, i: nat)
    requires n <= |tr| && Described(tr, n, Open(tr[..n])) && i in Open(tr[..n])
    ensures i < n && tr[i].Called? && forall k | i < k <= n :: Height(tr[..k]) > Height(tr[..i])
  {
    var m :| 0 <= m < |Open(tr[..n])| && Open(tr[..n])[m] == i;
    assert OpenSince(tr, n, i, m);
  }

  lemma ReturnIsNotOpen(tr: seq<Event>, n: nat, i: nat)
    requires Balanced(tr) && n <= |tr| && i < |tr| && tr[i].Returned?
    ensures i !in Open(tr[..n])
  {
    OpenIs(tr, n);
    forall m | 0 <= m < |Open(tr[..n])| ensures Open(tr[..n])[m] != i { assert OpenSince(tr, n, Open(tr[..n])[m], m); }
  }

  /** The height must pass through every value on its way back down. */
  lemma FindMatch(tr: seq<Event>, i: nat, n: nat) returns (j: nat)
    requires i < n < |tr| && tr[i].Called? && Height(tr[..n+1]) <= Height(tr[..i])
    ensures i < j <= n && Matches(tr, i, j)
  {
    HeightStep(tr, i);
    j := i + 1;
    while Height(tr[..j+1]) > Height(tr[..i])
      invariant i < j <= n
      invariant forall k | i < k <= j :: Height(tr[..k]) > Height(tr[..i])
      decreases n - j
    {
      j := j + 1;
    }
    HeightStep(tr, j);
  }

  /** Two calls nest or follow one another: the later one has returned by the time the earlier one
      does, or starts no earlier than that. */
  lemma CallsNest(tr: seq<Event>, i: nat, j: nat)
    requires Balanced(tr) && Timely(tr) && i < j < |tr| && tr[i].Called? && tr[j].Called?
    ensures if exists m: nat :: m < j && Matches(tr, i, m) then EndOf(tr, i) <= tr[j].tick
      else tr[i].tick < tr[j].tick && EndOf(tr, j) <= EndOf(tr, i)
  {
    if m: nat :| m < j && Matches(tr, i, m) {
      EndAt(tr, i, m);
    } else if m: nat :| Matches(tr, i, m) {
      EndAt(tr, i, m);
      HeightStep(tr, m);
      assert m > j && Height(tr[..m+1]) < Height(tr[..j]);
      var n := FindMatch(tr, j, m);
      EndAt(tr, j, n);
    } else if m: nat :| Matches(tr, j, m) {
      EndAt(tr, j, m);
    }
  }

  lemma EndAt(tr: seq<Event>, i: nat, j: nat)
    requires Matches(tr, i, j)
    ensures EndOf(tr, i) == tr[j].tick
  {
    forall m: nat | Matches(tr, i, m) ensures m == j { MatchIsUnique(tr, i, j, m); }
  }

  lemma EndsLater(tr: seq<Event>, i: nat)
    requires Timely(tr) && i < |tr| && tr[i].Called?
    ensures tr[i].tick < EndOf(tr, i) <= tr[|tr|-1].tick + 1
  {
    if j: nat :| Matches(tr, i, j) { EndAt(tr, i, j); }
  }

  ghost predicate Contains(a: Range, b: Range) {
    a.begin <= b.begin && b.end <= a.end
  }

  /** The earlier calls whose ranges contain the range of call `j` are those open when it is made. */
  lemma ContainsIffOpen(tr: seq<Event>, i: nat, j: nat, symbolOf: u64 -> nat)
    requires Balanced(tr) && Timely(tr) && i < j < |tr| && tr[i].Called? && tr[j].Called?
    ensures Contains(RangeOf(tr, i, symbolOf).range, RangeOf(tr, j, symbolOf).range) <==> i in Open(tr[..j])
  {
    CallsNest(tr, i, j);
    EndsLater(tr, j);
    OpenIs(tr, j);
    var open := Open(tr[..j]);
    if i in open { OpenIsCalled(tr, j, i); }
  }

  /** How many of the ranges `rs` contain `r`. */
  ghost function Containing(rs: seq<ProfileRange>, r: Range): nat {
    if rs == [] then 0
    else Containing(rs[..|rs|-1], r) + (if Contains(rs[|rs|-1].range, r) then 1 else 0)
  }

  ghost function CountBelow(open: seq<nat>, n: nat): nat {
    if n == 0 then 0 else CountBelow(open, n - 1) + (if n - 1 in open then 1 else 0)
  }

  lemma {:induction false} AllBelow(open: seq<nat>, n: nat)
    requires forall l, m | 0 <= l < m < |open| :: open[l] < open[m]
    requires forall m | 0 <= m < |open| :: open[m] < n
    ensures CountBelow(open, n) == |open|
  {
    if n > 0 {
      if n - 1 in open {
        var rest := open[..|open|-1];
        assert open[|open|-1] == n - 1;
        AllBelow(rest, n - 1);
        SameCount(open, rest, n - 1);
      } else {
        AllBelow(open, n - 1);
      }
    }
  }

  lemma {:induction false} SameCount(a: seq<nat>, b: seq<nat>, n: nat)
    requires forall k | 0 <= k < n :: k in a <==> k in b
    ensures CountBelow(a, n) == CountBelow(b, n)
  {
    if n > 0 { SameCount(a, b, n - 1); }
  }

  lemma {:induction false} ContainingIsOpen(tr: seq<Event>, n: nat, j: nat, symbolOf: u64 -> nat)
    requires Balanced(tr) && Timely(tr) && n <= j < |tr| && tr[j].Called?
    ensures Containing(RangesUpTo(tr, n, symbolOf), RangeOf(tr, j, symbolOf).range) == CountBelow(Open(tr[..j]), n)
  {
    if n > 0 {
      ContainingIsOpen(tr, n - 1, j, symbolOf);
      if tr[n-1].Called? {
        ContainsIffOpen(tr, n - 1, j, symbolOf);
        var rs := RangesUpTo(tr, n, symbolOf);
        assert rs[..|rs|-1] == RangesUpTo(tr, n - 1, symbolOf);
      } else {
        assert RangesUpTo(tr, n, symbolOf) == RangesUpTo(tr, n - 1, symbolOf);
        ReturnIsNotOpen(tr, j, n - 1);
      }
    }
  }

  /** The position in the run of the q-th call. */
  lemma {:induction false} CallPosition(tr: seq<Event>, n: nat, q: nat, symbolOf: u64 -> nat) returns (i: nat)
    requires n <= |tr| && q < |RangesUpTo(tr, n, symbolOf)|
    ensures i < n && tr[i].Called? && RangesUpTo(tr, n, symbolOf)[q] == RangeOf(tr, i, symbolOf)
    ensures RangesUpTo(tr, n, symbolOf)[..q] == RangesUpTo(tr, i, symbolOf)
  {
    var before := RangesUpTo(tr, n - 1, symbolOf);
    if q < |before| {
      i := CallPosition(tr, n - 1, q, symbolOf);
      assert RangesUpTo(tr, n, symbolOf)[..q] == before[..q];
    } else {
      i := n - 1;
      assert RangesUpTo(tr, n, symbolOf)[..q] == before;
    }
  }

  lemma {:induction false} RangeIsListed(c: seq<Event>, n: nat, i: nat, symbolOf: u64 -> nat)
    requires i < n <= |c| && c[i].Called?
    ensures RangeOf(c, i, symbolOf) in RangesUpTo(c, n, symbolOf)
  {
    if i < n - 1 {
      RangeIsListed(c, n - 1, i, symbolOf);
    } else {
      var rs := RangesUpTo(c, n, symbolOf);
      assert rs[|rs|-1] == RangeOf(c, i, symbolOf);
    }
  }

  /** In call order, the depth of a range is the number of earlier ranges that contain it. */
  lemma DepthCountsEnclosing(tr: seq<Event>, symbolOf: u64 -> nat, q: nat)
    requires Balanced(tr) && Timely(tr) && q < |RangesUpTo(tr, |tr|, symbolOf)|
    ensures var rs := RangesUpTo(tr, |tr|, symbolOf); rs[q].depth == Containing(rs[..q], rs[q].range)
  {
    var j := CallPosition(tr, |tr|, q, symbolOf);
    ContainingIsOpen(tr, j, j, symbolOf);
    OpenIs(tr, j);
    forall m | 0 <= m < |Open(tr[..j])| ensures Open(tr[..j])[m] < j { OpenIsCalled(tr, j, Open(tr[..j])[m]); }
    AllBelow(Open(tr[..j]), j);
  }

  /** Ranges are laminar: of two, in call order, the second lies inside the first or starts no earlier
      than its end. */
  lemma RangesNest(tr: seq<Event>, symbolOf: u64 -> nat, p: nat, q: nat)
    requires Balanced(tr) && Timely(tr) && p < q < |RangesUpTo(tr, |tr|, symbolOf)|
    ensures var rs := RangesUpTo(tr, |tr|, symbolOf);
      && rs[p].range.begin < rs[q].range.begin < rs[q].range.end
      && (rs[q].range.end <= rs[p].range.end || rs[p].range.end <= rs[q].range.begin)
  {
    var j := CallPosition(tr, |tr|, q, symbolOf);
    var rs := RangesUpTo(tr, |tr|, symbolOf);
    assert rs[..q][p] == rs[p];
    var i := CallPosition(tr, j, p, symbolOf);
    CallsNest(tr, i, j);
    EndsLater(tr, j);
  }
}
