/** What a sorted vector of disjoint intervals means, and what splitting, removing and
    visiting do to it (emulator/include/intervalvector.h). */
module IntervalLaws {
  import opened Types

  /** One interval [start, end) and the items filed in it. */
  datatype Piece<T> = Piece(start: u64, end: u64, items: multiset<T>)

  /** Non-empty intervals in ascending order, none reaching into the next. */
  ghost predicate Sorted<T>(ps: seq<Piece<T>>) {
    && (forall i | 0 <= i < |ps| :: ps[i].start < ps[i].end)
    && (forall i, j | 0 <= i < j < |ps| :: ps[i].end <= ps[j].start)
  }

  ghost predicate Covers<T>(ps: seq<Piece<T>>, a: u64) {
    exists i | 0 <= i < |ps| :: Within(ps[i], a)
  }

  ghost predicate Within<T>(p: Piece<T>, a: u64) {
    p.start <= a < p.end
  }

  ghost function Items<T>(ps: seq<Piece<T>>): multiset<T> {
    if ps == [] then multiset{} else ps[0].items + Items(ps[1..])
  }

  ghost function ItemSet<T>(ps: seq<Piece<T>>): set<T> {
    set x | x in Items(ps)
  }

  lemma {:induction false} ItemsConcat<T>(ps: seq<Piece<T>>, qs: seq<Piece<T>>)
    ensures Items(ps + qs) == Items(ps) + Items(qs)
  {
    if ps == [] {
      assert ps + qs == qs;
    } else {
      ItemsConcat(ps[1..], qs);
      assert (ps + qs)[1..] == ps[1..] + qs;
    }
  }

  function WithItem<T>(ps: seq<Piece<T>>, i: nat, x: T): (r: seq<Piece<T>>)
    requires i < |ps|
  {
    ps[i := ps[i].(items := ps[i].items + multiset{x})]
  }

  /** Filing one more item adds it and moves no interval. */
  lemma {:induction false} ItemsAdd<T>(ps: seq<Piece<T>>, i: nat, x: T)
    requires i < |ps|
    ensures Items(WithItem(ps, i, x)) == Items(ps) + multiset{x}
  {
    if i == 0 {
      assert WithItem(ps, i, x)[1..] == ps[1..];
    } else {
      ItemsAdd(ps[1..], i - 1, x);
      assert WithItem(ps, i, x)[1..] == WithItem(ps[1..], i - 1, x);
    }
  }

  lemma WithItemKeeps<T>(ps: seq<Piece<T>>, i: nat, x: T)
    requires i < |ps| && Sorted(ps)
    ensures Sorted(WithItem(ps, i, x)) && ItemSet(WithItem(ps, i, x)) == ItemSet(ps) + {x}
  {
    ItemsAdd(ps, i, x);
  }

  lemma LastItems<T>(ps: seq<Piece<T>>, lo: nat, i: nat)
    requires lo <= i < |ps|
    ensures Items(ps[lo..i+1]) == Items(ps[lo..i]) + ps[i].items
  {
    assert ps[lo..i+1] == ps[lo..i] + [ps[i]];
    ItemsConcat(ps[lo..i], [ps[i]]);
    assert [ps[i]][1..] == [];
  }

  /** `i` is the first piece with an end at or after `v`. */
  ghost predicate FoundAt<T>(ps: seq<Piece<T>>, v: u64, i: nat) {
    && i <= |ps|
    && (forall j | 0 <= j < i :: ps[j].end < v)
    && (forall j | i <= j < |ps| :: v <= ps[j].end)
  }

  /** Lookup is exact precisely for addresses that are covered and at which no interval ends: where
      two intervals touch, the left one is found, and in a gap the next one. */
  lemma FoundContainsIff<T>(ps: seq<Piece<T>>, v: u64, i: nat)
    requires Sorted(ps) && FoundAt(ps, v, i)
    ensures i < |ps| && Within(ps[i], v) <==> Covers(ps, v) && forall j | 0 <= j < |ps| :: ps[j].end != v
  {}

  /** `l` and `r` are the parts of `p` below and from `v`; an item goes left iff it ends by `v`. */
  ghost predicate Halves<T>(p: Piece<T>, v: u64, itemEnd: T -> u64, l: Piece<T>, r: Piece<T>) {
    && l.start == p.start && l.end == v && r.start == v && r.end == p.end
    && l.items + r.items == p.items
    && (forall x | x in l.items :: itemEnd(x) <= v)
    && (forall x | x in r.items :: itemEnd(x) > v)
  }

  /** `qs` is `ps` after splitting at `v`, where lookup answers `i`. */
  ghost predicate SplitAt<T>(ps: seq<Piece<T>>, v: u64, i: nat, itemEnd: T -> u64, qs: seq<Piece<T>>)
    requires i <= |ps|
  {
    if i == |ps| || v <= ps[i].start || ps[i].end <= v then qs == ps
    else
      && |qs| == |ps| + 1 && qs[..i] == ps[..i] && qs[i+2..] == ps[i+1..]
      && Halves(ps[i], v, itemEnd, qs[i], qs[i+1])
  }

  ghost predicate IsSplit<T>(ps: seq<Piece<T>>, v: u64, itemEnd: T -> u64, qs: seq<Piece<T>>) {
    exists i: nat | i <= |ps| :: FoundAt(ps, v, i) && SplitAt(ps, v, i, itemEnd, qs)
  }

  /** `pos` is the first piece starting at or after `start`. */
  ghost predicate InsertsAt<T>(ps: seq<Piece<T>>, start: u64, pos: nat) {
    && pos <= |ps|
    && (forall k | 0 <= k < pos :: ps[k].start < start)
    && (forall k | pos <= k < |ps| :: start <= ps[k].start)
  }

  /** Where the right half goes once the left half is in place: right behind it, with room to spare. */
  lemma RightHalfFits<T>(ps: seq<Piece<T>>, v: u64, i: nat, itemEnd: T -> u64, l: Piece<T>, r: Piece<T>, pos: nat)
    requires Sorted(ps) && FoundAt(ps, v, i) && i < |ps| && ps[i].start < v < ps[i].end
    requires Halves(ps[i], v, itemEnd, l, r)
    ensures Sorted(ps[i := l])
    ensures InsertsAt(ps[i := l], r.start, pos) ==> pos == i + 1 && (pos < |ps| ==> r.end <= ps[i := l][pos].start)
    ensures IsSplit(ps, v, itemEnd, Spliced(ps[i := l], i + 1, r))
  {
    var left := ps[i := l];
    if InsertsAt(left, r.start, pos) {
      assert left[i].start < r.start;
      assert i + 1 < |ps| ==> r.start <= r.end <= left[i + 1].start;
    }
    var qs := Spliced(left, i + 1, r);
    assert qs[..i] == ps[..i] && qs[i+2..] == ps[i+1..];
    assert SplitAt(ps, v, i, itemEnd, qs);
  }

  /** A piece of the split vector, as a position of the original one. */
  function Origin(i: nat, k: nat): nat {
    if k <= i then k else k - 1
  }

  lemma SplitPieces<T>(ps: seq<Piece<T>>, v: u64, i: nat, itemEnd: T -> u64, qs: seq<Piece<T>>)
    requires i < |ps| && ps[i].start < v < ps[i].end && SplitAt(ps, v, i, itemEnd, qs)
    ensures |qs| == |ps| + 1
    ensures forall k | 0 <= k < i :: qs[k] == ps[k]
    ensures forall k | i + 2 <= k < |qs| :: qs[k] == ps[k-1]
  {
    assert forall k | 0 <= k < i :: qs[k] == qs[..i][k];
    assert forall k | i + 2 <= k < |qs| :: qs[k] == qs[i+2..][k-i-2] == ps[i+1..][k-i-2];
  }

  /** Splitting keeps the vector sorted, leaves no interval around `v`, and changes neither the
      covered addresses nor the items. */
  lemma SplitKeeps<T>(ps: seq<Piece<T>>, v: u64, itemEnd: T -> u64, qs: seq<Piece<T>>)
    requires Sorted(ps) && IsSplit(ps, v, itemEnd, qs)
    ensures Sorted(qs)
    ensures forall k | 0 <= k < |qs| :: !(qs[k].start < v < qs[k].end)
    ensures forall a: u64 :: Covers(qs, a) <==> Covers(ps, a)
    ensures Items(qs) == Items(ps)
  {
    var i: nat :| i <= |ps| && FoundAt(ps, v, i) && SplitAt(ps, v, i, itemEnd, qs);
    if i < |ps| && ps[i].start < v < ps[i].end {
      SplitSorted(ps, v, i, itemEnd, qs);
      SplitCovers(ps, v, i, itemEnd, qs);
      SplitItems(ps, v, i, itemEnd, qs);
    } else {
      NothingAround(ps, v, i);
    }
  }

  lemma NothingAround<T>(ps: seq<Piece<T>>, v: u64, i: nat)
    requires Sorted(ps) && FoundAt(ps, v, i) && !(i < |ps| && ps[i].start < v < ps[i].end)
    ensures forall k | 0 <= k < |ps| :: !(ps[k].start < v < ps[k].end)
  {}

  lemma SplitSorted<T>(ps: seq<Piece<T>>, v: u64, i: nat, itemEnd: T -> u64, qs: seq<Piece<T>>)
    requires Sorted(ps) && i < |ps| && ps[i].start < v < ps[i].end && SplitAt(ps, v, i, itemEnd, qs)
    ensures Sorted(qs)
    ensures forall k | 0 <= k < |qs| :: !(qs[k].start < v < qs[k].end)
  {
    SplitPieces(ps, v, i, itemEnd, qs);
    forall j, k | 0 <= j < k < |qs| ensures qs[j].end <= qs[k].start {
      assert Origin(i, j) < Origin(i, k) ==> ps[Origin(i, j)].end <= ps[Origin(i, k)].start;
    }
  }

  lemma SplitCovers<T>(ps: seq<Piece<T>>, v: u64, i: nat, itemEnd: T -> u64, qs: seq<Piece<T>>)
    requires i < |ps| && ps[i].start < v < ps[i].end && SplitAt(ps, v, i, itemEnd, qs)
    ensures forall a: u64 :: Covers(qs, a) <==> Covers(ps, a)
  {
    SplitPieces(ps, v, i, itemEnd, qs);
    forall a: u64 ensures Covers(qs, a) <==> Covers(ps, a) {
      if Covers(qs, a) {
        var k :| 0 <= k < |qs| && Within(qs[k], a);
        assert Within(ps[Origin(i, k)], a);
      }
      if Covers(ps, a) {
        var k :| 0 <= k < |ps| && Within(ps[k], a);
        assert Within(qs[if k < i || (k == i && a < v) then k else k + 1], a);
      }
    }
  }

  lemma SplitItems<T>(ps: seq<Piece<T>>, v: u64, i: nat, itemEnd: T -> u64, qs: seq<Piece<T>>)
    requires i < |ps| && ps[i].start < v < ps[i].end && SplitAt(ps, v, i, itemEnd, qs)
    ensures Items(qs) == Items(ps)
  {
    assert ps == ps[..i] + ([ps[i]] + ps[i+1..]);
    assert qs == qs[..i] + ([qs[i], qs[i+1]] + qs[i+2..]);
    ItemsConcat(ps[..i], [ps[i]] + ps[i+1..]);
    ItemsConcat([ps[i]], ps[i+1..]);
    ItemsConcat(qs[..i], [qs[i], qs[i+1]] + qs[i+2..]);
    ItemsConcat([qs[i], qs[i+1]], qs[i+2..]);
    assert [qs[i], qs[i+1]][1..] == [qs[i+1]];
    assert [qs[i+1]][1..] == [] && [ps[i]][1..] == [];
  }

  /** Every item of `p` lies inside it. */
  ghost predicate Fits<T>(p: Piece<T>, itemStart: T -> u64, itemEnd: T -> u64) {
    forall x | x in p.items :: p.start <= itemStart(x) && itemEnd(x) <= p.end
  }

  ghost predicate Straddled<T>(p: Piece<T>, v: u64, itemStart: T -> u64, itemEnd: T -> u64) {
    exists x | x in p.items :: itemStart(x) < v < itemEnd(x)
  }

  lemma HalvesFit<T>(p: Piece<T>, v: u64, itemStart: T -> u64, itemEnd: T -> u64, l: Piece<T>, r: Piece<T>)
    requires Halves(p, v, itemEnd, l, r) && Fits(p, itemStart, itemEnd)
    ensures Fits(l, itemStart, itemEnd)
    ensures Fits(r, itemStart, itemEnd) <==> !Straddled(p, v, itemStart, itemEnd)
  {
    forall x | x in l.items || x in r.items ensures x in p.items { assert x in l.items + r.items; }
    if Straddled(p, v, itemStart, itemEnd) {
      var x :| x in p.items && itemStart(x) < v < itemEnd(x);
      assert x in l.items + r.items;
    }
  }

  /** Items that fit their intervals keep fitting exactly when none straddles the cut. */
  lemma SplitKeepsFitting<T>(ps: seq<Piece<T>>, v: u64, itemStart: T -> u64, itemEnd: T -> u64, qs: seq<Piece<T>>)
    requires Sorted(ps) && IsSplit(ps, v, itemEnd, qs)
    requires forall k | 0 <= k < |ps| :: Fits(ps[k], itemStart, itemEnd)
    ensures (forall k | 0 <= k < |qs| :: Fits(qs[k], itemStart, itemEnd))
      <==> (forall k | 0 <= k < |ps| :: !Straddled(ps[k], v, itemStart, itemEnd))
  {
    var i: nat :| i <= |ps| && FoundAt(ps, v, i) && SplitAt(ps, v, i, itemEnd, qs);
    if i < |ps| && ps[i].start < v < ps[i].end {
      SplitPieces(ps, v, i, itemEnd, qs);
      HalvesFit(ps[i], v, itemStart, itemEnd, qs[i], qs[i+1]);
      forall k | 0 <= k < |ps| && k != i ensures !Straddled(ps[k], v, itemStart, itemEnd) {
        NotStraddled(ps, v, i, itemStart, itemEnd, k);
      }
      forall k | 0 <= k < |qs| && k != i + 1 ensures Fits(qs[k], itemStart, itemEnd) {
        assert k == i || qs[k] == ps[Origin(i, k)];
      }
    } else {
      NothingAround(ps, v, i);
      forall k | 0 <= k < |ps| ensures !Straddled(ps[k], v, itemStart, itemEnd) {
        assert Fits(ps[k], itemStart, itemEnd);
      }
    }
  }

  lemma NotStraddled<T>(ps: seq<Piece<T>>, v: u64, i: nat, itemStart: T -> u64, itemEnd: T -> u64, k: nat)
    requires Sorted(ps) && i < |ps| && ps[i].start < v < ps[i].end && k < |ps| && k != i
    requires Fits(ps[k], itemStart, itemEnd)
    ensures !Straddled(ps[k], v, itemStart, itemEnd)
  {}

  /** `rs` is `ps` after splitting at `start`, which gives `qs`, and then at `end`. */
  ghost predicate IsCut<T>(ps: seq<Piece<T>>, start: u64, end: u64, itemEnd: T -> u64, qs: seq<Piece<T>>,
                           rs: seq<Piece<T>>) {
    IsSplit(ps, start, itemEnd, qs) && IsSplit(qs, end, itemEnd, rs)
  }

  lemma SplitRefines<T>(ps: seq<Piece<T>>, v: u64, itemEnd: T -> u64, qs: seq<Piece<T>>, k: nat)
    requires Sorted(ps) && IsSplit(ps, v, itemEnd, qs) && k < |qs|
    ensures exists j | 0 <= j < |ps| :: ps[j].start <= qs[k].start && qs[k].end <= ps[j].end
  {
    var i: nat :| i <= |ps| && FoundAt(ps, v, i) && SplitAt(ps, v, i, itemEnd, qs);
    if i < |ps| && ps[i].start < v < ps[i].end {
      SplitPieces(ps, v, i, itemEnd, qs);
      var j := Origin(i, k);
      assert ps[j].start <= qs[k].start && qs[k].end <= ps[j].end;
    } else {
      assert ps[k].start <= qs[k].start && qs[k].end <= ps[k].end;
    }
  }

  /** A cut vector is still sorted, covers the same addresses with the same items, and has no interval
      around either end of the cut. */
  lemma CutKeeps<T>(ps: seq<Piece<T>>, start: u64, end: u64, itemEnd: T -> u64, qs: seq<Piece<T>>, rs: seq<Piece<T>>)
    requires Sorted(ps) && IsCut(ps, start, end, itemEnd, qs, rs)
    ensures Sorted(rs) && Items(rs) == Items(ps)
    ensures forall a: u64 :: Covers(rs, a) <==> Covers(ps, a)
    ensures forall k | 0 <= k < |rs| :: !(rs[k].start < start < rs[k].end) && !(rs[k].start < end < rs[k].end)
  {
    SplitKeeps(ps, start, itemEnd, qs);
    SplitKeeps(qs, end, itemEnd, rs);
    forall k | 0 <= k < |rs| ensures !(rs[k].start < start < rs[k].end) { SplitRefines(qs, end, itemEnd, rs, k); }
  }

  /** The positions that removal erases: from the first start at or after `start` up to the first
      start beyond `end`. */
  ghost predicate Erases<T>(rs: seq<Piece<T>>, start: u64, end: u64, first: nat, afterLast: nat) {
    && first <= afterLast <= |rs|
    && (forall k | 0 <= k < first :: rs[k].start < start)
    && (forall k | first <= k < afterLast :: start <= rs[k].start <= end)
    && (forall k | afterLast <= k < |rs| :: end < rs[k].start)
  }

  /** The positions that a range visit walks: from the first end at or after `start` up to the first
      start beyond `end`. */
  ghost predicate Visits<T>(rs: seq<Piece<T>>, start: u64, end: u64, first: nat, afterLast: nat) {
    && first <= afterLast <= |rs|
    && (forall k | 0 <= k < first :: rs[k].end < start)
    && (forall k | first <= k < afterLast :: start <= rs[k].end && rs[k].start <= end)
    && (forall k | afterLast <= k < |rs| :: end < rs[k].start)
  }

  lemma ErasesBetween<T>(rs: seq<Piece<T>>, start: u64, end: u64, lo: nat, hi: nat)
    requires start <= end && lo <= |rs| && hi <= |rs|
    requires (forall k | 0 <= k < lo :: rs[k].start < start) && (forall k | lo <= k < |rs| :: start <= rs[k].start)
    requires (forall k | 0 <= k < hi :: rs[k].start <= end) && (forall k | hi <= k < |rs| :: end < rs[k].start)
    ensures Erases(rs, start, end, lo, hi)
  {
    assert hi < |rs| ==> end < rs[hi].start;
  }

  lemma VisitsBetween<T>(rs: seq<Piece<T>>, start: u64, end: u64, lo: nat, hi: nat)
    requires Sorted(rs) && start <= end && lo <= |rs| && hi <= |rs|
    requires (forall k | 0 <= k < lo :: rs[k].end < start) && (forall k | lo <= k < |rs| :: start <= rs[k].end)
    requires (forall k | 0 <= k < hi :: rs[k].start <= end) && (forall k | hi <= k < |rs| :: end < rs[k].start)
    ensures Visits(rs, start, end, lo, hi)
  {
    assert hi < |rs| ==> end < rs[hi].start < rs[hi].end;
  }

  function Without<T>(rs: seq<Piece<T>>, first: nat, afterLast: nat): seq<Piece<T>>
    requires first <= afterLast <= |rs|
  {
    rs[..first] + rs[afterLast..]
  }

  /** Removal: what is left is sorted and loses exactly [start, end) and the whole interval that the
      cut left starting at `end`; the kept pieces and the erased ones share out the items. */
  lemma RemoveExact<T>(ps: seq<Piece<T>>, start: u64, end: u64, itemEnd: T -> u64, qs: seq<Piece<T>>, rs: seq<Piece<T>>,
                       first: nat, afterLast: nat)
    requires Sorted(ps) && start <= end && IsCut(ps, start, end, itemEnd, qs, rs)
    requires Erases(rs, start, end, first, afterLast)
    ensures Sorted(Without(rs, first, afterLast))
    ensures forall a: u64 :: Covers(Without(rs, first, afterLast), a) <==>
      Covers(ps, a) && !(start <= a < end) && !StartsAtAndHolds(rs, end, a)
    ensures Items(Without(rs, first, afterLast)) + Items(rs[first..afterLast]) == Items(ps)
  {
    CutKeeps(ps, start, end, itemEnd, qs, rs);
    WithoutSorted(rs, first, afterLast);
    forall a: u64 ensures Covers(Without(rs, first, afterLast), a) <==>
      Covers(ps, a) && !(start <= a < end) && !StartsAtAndHolds(rs, end, a)
    {
      WithoutCovers(rs, start, end, first, afterLast, a);
    }
    WithoutItems(rs, first, afterLast);
  }

  lemma WithoutSorted<T>(rs: seq<Piece<T>>, first: nat, afterLast: nat)
    requires Sorted(rs) && first <= afterLast <= |rs|
    ensures Sorted(Without(rs, first, afterLast))
  {
    var out := Without(rs, first, afterLast);
    assert forall k | 0 <= k < |out| :: out[k] == rs[if k < first then k else k - first + afterLast];
  }

  lemma {:induction false} ItemsThree<T>(a: seq<Piece<T>>, b: seq<Piece<T>>, c: seq<Piece<T>>)
    ensures Items(a + c) + Items(b) == Items(a + (b + c))
  {
    ItemsConcat(a, c);
    ItemsConcat(b, c);
    ItemsConcat(a, b + c);
  }

  lemma {:induction false} WithoutItems<T>(rs: seq<Piece<T>>, first: nat, afterLast: nat)
    requires first <= afterLast <= |rs|
    ensures Items(Without(rs, first, afterLast)) + Items(rs[first..afterLast]) == Items(rs)
  {
    var a, b, c := rs[..first], rs[first..afterLast], rs[afterLast..];
    assert rs == a + (b + c);
    ItemsThree(a, b, c);
  }

  ghost predicate StartsAtAndHolds<T>(rs: seq<Piece<T>>, end: u64, a: u64) {
    exists k | 0 <= k < |rs| :: rs[k].start == end && Within(rs[k], a)
  }

  lemma WithoutCovers<T>(rs: seq<Piece<T>>, start: u64, end: u64, first: nat, afterLast: nat, a: u64)
    requires Sorted(rs) && start <= end && Erases(rs, start, end, first, afterLast)
    requires forall k | 0 <= k < |rs| :: !(rs[k].start < start < rs[k].end) && !(rs[k].start < end < rs[k].end)
    ensures Covers(Without(rs, first, afterLast), a) <==>
      Covers(rs, a) && !(start <= a < end) && !StartsAtAndHolds(rs, end, a)
  {
    if Covers(rs, a) {
      var j :| 0 <= j < |rs| && Within(rs[j], a);
      WithoutCoversPiece(rs, first, afterLast, a, j);
      forall k | 0 <= k < |rs| && Within(rs[k], a) ensures k == j { OnlyOneWithin(rs, j, k, a); }
      assert first <= j < afterLast <==> start <= rs[j].start <= end;
      assert StartsAtAndHolds(rs, end, a) <==> rs[j].start == end;
    } else {
      WithoutCoversNothing(rs, first, afterLast, a);
    }
  }

  lemma OnlyOneWithin<T>(rs: seq<Piece<T>>, j: nat, k: nat, a: u64)
    requires Sorted(rs) && j < |rs| && k < |rs| && Within(rs[j], a) && Within(rs[k], a)
    ensures j == k
  {}

  lemma WithoutAt<T>(rs: seq<Piece<T>>, first: nat, afterLast: nat, k: nat)
    requires first <= afterLast <= |rs| && k < |Without(rs, first, afterLast)|
    ensures var j := if k < first then k else k - first + afterLast;
      j < |rs| && Without(rs, first, afterLast)[k] == rs[j]
  {}

  lemma WithoutCoversPiece<T>(rs: seq<Piece<T>>, first: nat, afterLast: nat, a: u64, j: nat)
    requires Sorted(rs) && first <= afterLast <= |rs| && j < |rs| && Within(rs[j], a)
    ensures Covers(Without(rs, first, afterLast), a) <==> !(first <= j < afterLast)
  {
    var out := Without(rs, first, afterLast);
    if !(first <= j < afterLast) {
      var k := if j < first then j else j - afterLast + first;
      WithoutAt(rs, first, afterLast, k);
      assert Within(out[k], a);
    }
    if Covers(out, a) {
      var k :| 0 <= k < |out| && Within(out[k], a);
      WithoutAt(rs, first, afterLast, k);
      OnlyOneWithin(rs, j, if k < first then k else k - first + afterLast, a);
    }
  }

  lemma WithoutCoversNothing<T>(rs: seq<Piece<T>>, first: nat, afterLast: nat, a: u64)
    requires first <= afterLast <= |rs| && !Covers(rs, a)
    ensures !Covers(Without(rs, first, afterLast), a)
  {
    var out := Without(rs, first, afterLast);
    forall k | 0 <= k < |out| ensures !Within(out[k], a) { WithoutAt(rs, first, afterLast, k); }
  }

  /** Removal covers what the caller meant - everything outside [start, end) - exactly when `end`
      itself was not covered. */
  lemma RemoveMeantIff<T>(ps: seq<Piece<T>>, start: u64, end: u64, itemEnd: T -> u64, qs: seq<Piece<T>>,
                          rs: seq<Piece<T>>, first: nat, afterLast: nat)
    requires Sorted(ps) && start <= end && IsCut(ps, start, end, itemEnd, qs, rs)
    requires Erases(rs, start, end, first, afterLast)
    ensures (forall a: u64 :: Covers(Without(rs, first, afterLast), a) <==> Covers(ps, a) && !(start <= a < end))
      <==> !Covers(ps, end)
  {
    RemoveExact(ps, start, end, itemEnd, qs, rs, first, afterLast);
    CutKeeps(ps, start, end, itemEnd, qs, rs);
    if Covers(ps, end) {
      assert Covers(rs, end);
      var k :| 0 <= k < |rs| && Within(rs[k], end);
      assert StartsAtAndHolds(rs, end, end);
    } else {
      assert !Covers(rs, end);
      assert forall k | 0 <= k < |rs| && rs[k].start == end :: Within(rs[k], end);
    }
  }

  /** A range visit reaches every piece that removing the same range erases; the only other piece it
      reaches is one that ends exactly at `start`. */
  lemma VisitsCoverErased<T>(ps: seq<Piece<T>>, start: u64, end: u64, itemEnd: T -> u64, qs: seq<Piece<T>>,
                             rs: seq<Piece<T>>, visitFirst: nat, visitAfter: nat, first: nat, afterLast: nat)
    requires Sorted(ps) && start <= end && IsCut(ps, start, end, itemEnd, qs, rs)
    requires Visits(rs, start, end, visitFirst, visitAfter) && Erases(rs, start, end, first, afterLast)
    ensures visitAfter == afterLast && visitFirst <= first <= visitFirst + 1
    ensures first == visitFirst + 1 <==> exists k | 0 <= k < |rs| :: rs[k].end == start
  {
    CutKeeps(ps, start, end, itemEnd, qs, rs);
    SamePositions(rs, start, end, visitFirst, visitAfter, first, afterLast);
  }

  lemma SamePositions<T>(rs: seq<Piece<T>>, start: u64, end: u64,
                         visitFirst: nat, visitAfter: nat, first: nat, afterLast: nat)
    requires Sorted(rs) && start <= end && forall k | 0 <= k < |rs| :: !(rs[k].start < start < rs[k].end)
    requires Visits(rs, start, end, visitFirst, visitAfter) && Erases(rs, start, end, first, afterLast)
    ensures visitAfter == afterLast && visitFirst <= first <= visitFirst + 1
    ensures first == visitFirst + 1 <==> exists k | 0 <= k < |rs| :: rs[k].end == start
  {
    assert visitAfter < |rs| ==> end < rs[visitAfter].start;
    assert afterLast < |rs| ==> end < rs[afterLast].start;
    assert first < afterLast ==> start <= rs[first].start < rs[first].end;
    assert first < |rs| ==> start <= rs[first].start < rs[first].end;
    assert visitFirst + 1 < |rs| ==> rs[visitFirst].end <= rs[visitFirst + 1].start;
    if visitFirst < first { assert rs[visitFirst].end == start; }
  }

  /** Cutting an already cut vector again changes nothing. */
  lemma CutTwice<T>(rs: seq<Piece<T>>, start: u64, end: u64, itemEnd: T -> u64, qs: seq<Piece<T>>, us: seq<Piece<T>>)
    requires Sorted(rs) && IsCut(rs, start, end, itemEnd, qs, us)
    requires forall k | 0 <= k < |rs| :: !(rs[k].start < start < rs[k].end) && !(rs[k].start < end < rs[k].end)
    ensures us == rs
  {
    assert qs == rs;
  }

  function Spliced<X>(s: seq<X>, pos: nat, x: X): (r: seq<X>)
    requires pos <= |s|
    ensures |r| == |s| + 1
    ensures forall k {:trigger r[k]} | 0 <= k < |r| :: r[k] == if k < pos then s[k] else if k == pos then x else s[k-1]
  {
    s[..pos] + [x] + s[pos..]
  }

  /** Inserting before the first start at or after the new one, with only the right neighbour checked,
      keeps the vector sorted exactly when the left neighbour leaves room too. */
  lemma InsertKeepsIff<T>(ps: seq<Piece<T>>, q: Piece<T>, pos: nat)
    requires Sorted(ps) && q.start < q.end && InsertsAt(ps, q.start, pos)
    requires pos < |ps| ==> q.end <= ps[pos].start
    ensures Sorted(Spliced(ps, pos, q)) <==> pos == 0 || ps[pos-1].end <= q.start
  {
    var out := Spliced(ps, pos, q);
    if pos > 0 && ps[pos-1].end > q.start { assert !(out[pos-1].end <= out[pos].start); }
  }

  lemma SliceItems<T>(rs: seq<Piece<T>>, a: nat, b: nat, c: nat)
    requires a <= b <= c <= |rs|
    ensures Items(rs[a..c]) == Items(rs[a..b]) + Items(rs[b..c])
  {
    assert rs[a..c] == rs[a..b] + rs[b..c];
    ItemsConcat(rs[a..b], rs[b..c]);
  }

  lemma SliceInside<T>(rs: seq<Piece<T>>, a: nat, b: nat)
    requires a <= b <= |rs|
    ensures Items(rs[a..b]) <= Items(rs)
  {
    SliceItems(rs, 0, a, b);
    SliceItems(rs, 0, b, |rs|);
    assert rs[0..|rs|] == rs;
  }

  /** Invalidating a range: visiting it and then removing it. Every item that is not kept was visited,
      and nothing new is kept. */
  lemma InvalidateKeeps<T>(ps: seq<Piece<T>>, start: u64, end: u64, itemEnd: T -> u64, qs: seq<Piece<T>>,
                           rs: seq<Piece<T>>,
                           visitFirst: nat, visitAfter: nat, qs': seq<Piece<T>>, rs': seq<Piece<T>>,
                           first: nat, afterLast: nat)
    requires Sorted(ps) && start <= end && IsCut(ps, start, end, itemEnd, qs, rs)
    requires Visits(rs, start, end, visitFirst, visitAfter)
    requires IsCut(rs, start, end, itemEnd, qs', rs') && Erases(rs', start, end, first, afterLast)
    ensures rs' == rs && Sorted(Without(rs', first, afterLast))
    ensures var kept, visited := Items(Without(rs', first, afterLast)), Items(rs[visitFirst..visitAfter]);
      kept <= Items(ps) && visited <= Items(ps) && Items(ps) <= kept + visited
  {
    CutKeeps(ps, start, end, itemEnd, qs, rs);
    CutTwice(rs, start, end, itemEnd, qs', rs');
    SamePositions(rs, start, end, visitFirst, visitAfter, first, afterLast);
    WithoutSorted(rs, first, afterLast);
    WithoutItems(rs, first, afterLast);
    SliceItems(rs, visitFirst, first, afterLast);
    SliceItems(rs, 0, visitFirst, visitAfter);
    SliceItems(rs, 0, visitAfter, |rs|);
    assert rs[0..|rs|] == rs;
  }

  /** No item is filed twice. */
  ghost predicate Once<T>(ps: seq<Piece<T>>) {
    forall x | x in Items(ps) :: Items(ps)[x] == 1
  }

  lemma WithItemOnce<T>(ps: seq<Piece<T>>, i: nat, x: T)
    requires i < |ps| && Once(ps) && x !in ItemSet(ps)
    ensures Once(WithItem(ps, i, x))
  {
    ItemsAdd(ps, i, x);
  }

  /** An interval covers the address just below `v`. */
  ghost predicate Touches<T>(ps: seq<Piece<T>>, v: u64) {
    exists i | 0 <= i < |ps| :: ps[i].start < v <= ps[i].end
  }

  /** Then only does a piece end at `start` after cutting there. */
  lemma CutTouches<T>(ps: seq<Piece<T>>, start: u64, end: u64, itemEnd: T -> u64, qs: seq<Piece<T>>,
                      rs: seq<Piece<T>>, k: nat)
    requires Sorted(ps) && IsCut(ps, start, end, itemEnd, qs, rs) && k < |rs| && rs[k].end == start
    ensures Touches(ps, start)
  {
    CutKeeps(ps, start, end, itemEnd, qs, rs);
    SplitKeeps(ps, start, itemEnd, qs);
    SplitRefines(qs, end, itemEnd, rs, k);
    var j :| 0 <= j < |qs| && qs[j].start <= rs[k].start && rs[k].end <= qs[j].end;
    SplitRefines(ps, start, itemEnd, qs, j);
    var i :| 0 <= i < |ps| && ps[i].start <= qs[j].start && qs[j].end <= ps[i].end;
    assert ps[i].start < start <= ps[i].end;
  }

  /** When nothing reaches up to it from below, invalidating a range drops exactly what it visits. */
  lemma InvalidateClean<T>(ps: seq<Piece<T>>, start: u64, end: u64, itemEnd: T -> u64, qs: seq<Piece<T>>,
                           rs: seq<Piece<T>>, visitFirst: nat, visitAfter: nat, first: nat, afterLast: nat)
    requires Sorted(ps) && start <= end && IsCut(ps, start, end, itemEnd, qs, rs)
    requires Visits(rs, start, end, visitFirst, visitAfter) && Erases(rs, start, end, first, afterLast)
    requires Once(ps) && !Touches(ps, start)
    ensures var kept := Without(rs, first, afterLast);
      && Once(kept)
      && forall x :: x in ItemSet(kept) <==> x in ItemSet(ps) && x !in Items(rs[visitFirst..visitAfter])
  {
    CutKeeps(ps, start, end, itemEnd, qs, rs);
    SamePositions(rs, start, end, visitFirst, visitAfter, first, afterLast);
    if k :| 0 <= k < |rs| && rs[k].end == start { CutTouches(ps, start, end, itemEnd, qs, rs, k); }
    assert first == visitFirst;
    WithoutItems(rs, first, afterLast);
    OnceSplits(Items(ps), Items(Without(rs, first, afterLast)), Items(rs[first..afterLast]));
  }

  lemma OnceSplits<T>(all: multiset<T>, a: multiset<T>, b: multiset<T>)
    requires all == a + b && forall x | x in all :: all[x] == 1
    ensures (forall x | x in a :: a[x] == 1) && forall x :: x in a <==> x in all && x !in b
  {
    forall x ensures x in a <==> x in all && x !in b { assert all[x] == a[x] + b[x]; }
    forall x | x in a ensures a[x] == 1 { assert all[x] == a[x] + b[x]; }
  }

  lemma {:induction false} InSome<T>(ps: seq<Piece<T>>, x: T)
    ensures x in Items(ps) <==> exists k | 0 <= k < |ps| :: x in ps[k].items
  {
    if ps != [] {
      InSome(ps[1..], x);
      assert forall k | 1 <= k < |ps| :: ps[k] == ps[1..][k-1];
      if k :| 0 <= k < |ps[1..]| && x in ps[1..][k].items { assert x in ps[k+1].items; }
    }
  }

  /** The interval and the closed region [start, end] have an address in common, or touch. */
  ghost predicate Touching<T>(p: Piece<T>, start: u64, end: u64) {
    start <= p.end && p.start <= end
  }

  /** `x` is filed in an interval that touches [start, end]. */
  ghost predicate Near<T>(ps: seq<Piece<T>>, start: u64, end: u64, x: T) {
    exists j | 0 <= j < |ps| :: x in ps[j].items && Touching(ps[j], start, end)
  }

  /** Cutting inside the region makes no difference to that. */
  lemma SplitNear<T>(ps: seq<Piece<T>>, v: u64, itemEnd: T -> u64, qs: seq<Piece<T>>, start: u64, end: u64, x: T)
    requires IsSplit(ps, v, itemEnd, qs) && start <= v <= end
    ensures Near(qs, start, end, x) <==> Near(ps, start, end, x)
  {
    var i: nat :| i <= |ps| && FoundAt(ps, v, i) && SplitAt(ps, v, i, itemEnd, qs);
    if i < |ps| && ps[i].start < v < ps[i].end {
      SplitPieces(ps, v, i, itemEnd, qs);
      assert x in ps[i].items <==> x in qs[i].items || x in qs[i+1].items by {
        assert x in ps[i].items <==> x in qs[i].items + qs[i+1].items;
      }
      if k :| 0 <= k < |qs| && x in qs[k].items && Touching(qs[k], start, end) {
        assert x in ps[Origin(i, k)].items && Touching(ps[Origin(i, k)], start, end);
      }
      if j :| 0 <= j < |ps| && x in ps[j].items && Touching(ps[j], start, end) {
        var k := if j < i || (j == i && x in qs[i].items) then j else j + 1;
        assert x in qs[k].items && Touching(qs[k], start, end);
      }
    }
  }

  /** Visiting [start, end] reaches an item iff it is filed in an interval that touches the region. */
  lemma VisitedIff<T>(ps: seq<Piece<T>>, start: u64, end: u64, itemEnd: T -> u64, qs: seq<Piece<T>>, rs: seq<Piece<T>>,
                      first: nat, afterLast: nat, x: T)
    requires Sorted(ps) && start <= end && IsCut(ps, start, end, itemEnd, qs, rs)
    requires Visits(rs, start, end, first, afterLast)
    ensures x in Items(rs[first..afterLast]) <==> Near(ps, start, end, x)
  {
    SplitNear(ps, start, itemEnd, qs, start, end, x);
    SplitNear(qs, end, itemEnd, rs, start, end, x);
    InSome(rs[first..afterLast], x);
    var slice := rs[first..afterLast];
    if k :| 0 <= k < |rs| && x in rs[k].items && Touching(rs[k], start, end) { assert x in slice[k - first].items; }
    if k :| 0 <= k < |slice| && x in slice[k].items {
      assert x in rs[k + first].items && Touching(rs[k + first], start, end);
    }
  }

  /** An item starts in the closed interval that holds it. */
  ghost predicate Houses<T>(p: Piece<T>, itemStart: T -> u64) {
    forall x | x in p.items :: p.start <= itemStart(x) <= p.end
  }

  ghost predicate Housed<T>(ps: seq<Piece<T>>, itemStart: T -> u64) {
    forall k {:trigger ps[k]} | 0 <= k < |ps| :: Houses(ps[k], itemStart)
  }

  /** What starts in the region is then near it. */
  lemma HousedIsNear<T>(ps: seq<Piece<T>>, itemStart: T -> u64, start: u64, end: u64, x: T)
    requires Housed(ps, itemStart) && x in Items(ps) && start <= itemStart(x) <= end
    ensures Near(ps, start, end, x)
  {
    InSome(ps, x);
    var k :| 0 <= k < |ps| && x in ps[k].items;
    assert Touching(ps[k], start, end);
  }

  /** Filing an item keeps that iff it starts in the closed interval it is filed in; an address that is
      covered does. */
  lemma WithItemHoused<T>(ps: seq<Piece<T>>, i: nat, x: T, itemStart: T -> u64)
    requires Sorted(ps) && i < |ps| && FoundAt(ps, itemStart(x), i) && Housed(ps, itemStart)
    ensures Housed(WithItem(ps, i, x), itemStart) <==> ps[i].start <= itemStart(x)
    ensures Covers(ps, itemStart(x)) ==> ps[i].start <= itemStart(x)
  {
    var qs := WithItem(ps, i, x);
    assert x in qs[i].items;
    forall k | 0 <= k < |qs| && k != i ensures Houses(qs[k], itemStart) { assert qs[k] == ps[k]; }
    if ps[i].start <= itemStart(x) { assert Houses(ps[i], itemStart) && Houses(qs[i], itemStart); }
  }

  /** Cutting keeps items housed but for those of the pieces that start at a cut. */
  ghost predicate HousedBeside<T>(ps: seq<Piece<T>>, itemStart: T -> u64, start: u64, end: u64) {
    forall k {:trigger ps[k]} | 0 <= k < |ps| :: ps[k].start == start || ps[k].start == end || Houses(ps[k], itemStart)
  }

  lemma SplitHouses<T>(ps: seq<Piece<T>>, v: u64, itemStart: T -> u64, itemEnd: T -> u64, qs: seq<Piece<T>>,
                       start: u64, end: u64)
    requires Sorted(ps) && IsSplit(ps, v, itemEnd, qs) && (v == start || v == end)
    requires HousedBeside(ps, itemStart, start, end)
    requires forall x {:trigger itemEnd(x)} | x in Items(ps) :: itemStart(x) < itemEnd(x)
    ensures HousedBeside(qs, itemStart, start, end)
  {
    var i: nat :| i <= |ps| && FoundAt(ps, v, i) && SplitAt(ps, v, i, itemEnd, qs);
    if i < |ps| && ps[i].start < v < ps[i].end {
      SplitPieces(ps, v, i, itemEnd, qs);
      forall k | 0 <= k < |qs|
        ensures qs[k].start == start || qs[k].start == end || Houses(qs[k], itemStart)
      {
        if k == i { LeftHouses(ps, i, v, itemStart, itemEnd, qs[i], qs[i+1]); }
        else if k != i + 1 { assert qs[k] == ps[Origin(i, k)]; }
      }
    }
  }

  lemma LeftHouses<T>(ps: seq<Piece<T>>, i: nat, v: u64, itemStart: T -> u64, itemEnd: T -> u64, l: Piece<T>,
                      r: Piece<T>)
    requires i < |ps| && Halves(ps[i], v, itemEnd, l, r)
    requires forall x {:trigger itemEnd(x)} | x in Items(ps) :: itemStart(x) < itemEnd(x)
    ensures Houses(ps[i], itemStart) ==> Houses(l, itemStart)
  {
    forall x | x in l.items ensures x in ps[i].items && itemStart(x) < itemEnd(x) {
      assert x in l.items + r.items;
      InSome(ps, x);
    }
  }

  /** Removal keeps items housed: whatever crosses an end of the region goes. */
  lemma RemovalHouses<T>(ps: seq<Piece<T>>, start: u64, end: u64, itemStart: T -> u64, itemEnd: T -> u64,
                         qs: seq<Piece<T>>, rs: seq<Piece<T>>, first: nat, afterLast: nat)
    requires Sorted(ps) && start <= end && IsCut(ps, start, end, itemEnd, qs, rs)
    requires Erases(rs, start, end, first, afterLast)
    requires Housed(ps, itemStart)
    requires forall x {:trigger itemEnd(x)} | x in Items(ps) :: itemStart(x) < itemEnd(x)
    ensures Housed(Without(rs, first, afterLast), itemStart)
  {
    SplitKeeps(ps, start, itemEnd, qs);
    SplitHouses(ps, start, itemStart, itemEnd, qs, start, end);
    SplitHouses(qs, end, itemStart, itemEnd, rs, start, end);
    var out := Without(rs, first, afterLast);
    forall k | 0 <= k < |out| ensures Houses(out[k], itemStart) { WithoutAt(rs, first, afterLast, k); }
  }

  /** The same intervals with more items, each new one filed where lookup of its start leads. */
  ghost predicate Grows<T>(ps: seq<Piece<T>>, qs: seq<Piece<T>>, itemStart: T -> u64) {
    && |qs| == |ps|
    && forall k {:trigger qs[k]} | 0 <= k < |ps| :: Grown(ps, qs[k], k, itemStart)
  }

  ghost predicate Grown<T>(ps: seq<Piece<T>>, q: Piece<T>, k: nat, itemStart: T -> u64)
    requires k < |ps|
  {
    && q.start == ps[k].start && q.end == ps[k].end && ps[k].items <= q.items
    && forall x | x in q.items :: x in ps[k].items || FoundAt(ps, itemStart(x), k)
  }

  lemma GrowsOn<T>(ps: seq<Piece<T>>, qs: seq<Piece<T>>, rs: seq<Piece<T>>, itemStart: T -> u64)
    requires Grows(ps, qs, itemStart) && Grows(qs, rs, itemStart)
    ensures Grows(ps, rs, itemStart)
  {
    forall k | 0 <= k < |ps| ensures Grown(ps, rs[k], k, itemStart) {
      assert Grown(ps, qs[k], k, itemStart) && Grown(qs, rs[k], k, itemStart);
      forall x | x in rs[k].items && x !in qs[k].items ensures FoundAt(ps, itemStart(x), k) {
        SameEnds(ps, qs, itemStart, itemStart(x), k);
      }
    }
  }

  lemma SameEnds<T>(ps: seq<Piece<T>>, qs: seq<Piece<T>>, itemStart: T -> u64, v: u64, k: nat)
    requires Grows(ps, qs, itemStart)
    ensures FoundAt(ps, v, k) <==> FoundAt(qs, v, k)
  {
    assert forall j | 0 <= j < |ps| :: Grown(ps, qs[j], j, itemStart) && qs[j].end == ps[j].end;
  }

  lemma WithItemGrows<T>(ps: seq<Piece<T>>, i: nat, x: T, itemStart: T -> u64)
    requires i < |ps| && FoundAt(ps, itemStart(x), i)
    ensures Grows(ps, WithItem(ps, i, x), itemStart)
  {
    var qs := WithItem(ps, i, x);
    forall k | 0 <= k < |ps| ensures Grown(ps, qs[k], k, itemStart) {}
  }

  /** Growing keeps items housed when all that is new starts where something is covered. */
  lemma GrowsHoused<T>(ps: seq<Piece<T>>, qs: seq<Piece<T>>, itemStart: T -> u64)
    requires Sorted(ps) && Grows(ps, qs, itemStart) && Housed(ps, itemStart)
    requires forall x {:trigger itemStart(x)} | x in Items(qs) && x !in Items(ps) :: Covers(ps, itemStart(x))
    ensures Housed(qs, itemStart)
  {
    forall k | 0 <= k < |qs| ensures Houses(qs[k], itemStart) {
      assert Grown(ps, qs[k], k, itemStart) && Houses(ps[k], itemStart);
      forall x | x in qs[k].items && x !in ps[k].items ensures ps[k].start <= itemStart(x) <= ps[k].end {
        InSome(qs, x);
        InSome(ps, x);
        if j :| 0 <= j < |ps| && x in ps[j].items { assert Houses(ps[j], itemStart); HousedAt(ps, itemStart(x), j, k); }
      }
    }
  }

  lemma HousedAt<T>(ps: seq<Piece<T>>, v: u64, j: nat, k: nat)
    requires Sorted(ps) && j < |ps| && k < |ps| && ps[j].start <= v <= ps[j].end && FoundAt(ps, v, k)
    ensures ps[k].start <= v <= ps[k].end
  {}

  /** `a` lies in the rest of an interval that is cut at `end`. */
  ghost predicate Rest<T>(ps: seq<Piece<T>>, end: u64, a: u64) {
    exists k | 0 <= k < |ps| :: RestOf(ps[k], end, a)
  }

  ghost predicate RestOf<T>(p: Piece<T>, end: u64, a: u64) {
    Within(p, end) && Within(p, a) && end <= a
  }

  lemma SplitRest<T>(ps: seq<Piece<T>>, v: u64, itemEnd: T -> u64, qs: seq<Piece<T>>, end: u64, a: u64)
    requires Sorted(ps) && IsSplit(ps, v, itemEnd, qs) && v <= end
    ensures Rest(qs, end, a) <==> Rest(ps, end, a)
  {
    var i: nat :| i <= |ps| && FoundAt(ps, v, i) && SplitAt(ps, v, i, itemEnd, qs);
    if i < |ps| && ps[i].start < v < ps[i].end {
      SplitPieces(ps, v, i, itemEnd, qs);
      if k :| 0 <= k < |qs| && RestOf(qs[k], end, a) { assert RestOf(ps[Origin(i, k)], end, a); }
      if j :| 0 <= j < |ps| && RestOf(ps[j], end, a) { assert RestOf(qs[if j < i then j else j + 1], end, a); }
    }
  }

  /** What removal leaves covered, in terms of what was covered before: all but the region and the rest
      of an interval that is cut at `end`. */
  lemma RemovalCovers<T>(ps: seq<Piece<T>>, start: u64, end: u64, itemEnd: T -> u64, qs: seq<Piece<T>>,
                         rs: seq<Piece<T>>, first: nat, afterLast: nat, a: u64)
    requires Sorted(ps) && start <= end && IsCut(ps, start, end, itemEnd, qs, rs)
    requires Erases(rs, start, end, first, afterLast)
    ensures Covers(Without(rs, first, afterLast), a) <==> Covers(ps, a) && !(start <= a < end) && !Rest(ps, end, a)
  {
    RemoveExact(ps, start, end, itemEnd, qs, rs, first, afterLast);
    CutKeeps(ps, start, end, itemEnd, qs, rs);
    SplitKeeps(ps, start, itemEnd, qs);
    SplitRest(ps, start, itemEnd, qs, end, a);
    SplitRest(qs, end, itemEnd, rs, end, a);
    assert StartsAtAndHolds(rs, end, a) <==> Rest(rs, end, a);
  }

  ghost predicate Meets<T>(ps: seq<Piece<T>>, start: u64, end: u64) {
    exists i | 0 <= i < |ps| :: ps[i].start < end && start < ps[i].end
  }

  /** A new interval meets no other iff it passes the check on its right and its left neighbour leaves room. */
  lemma MeetsIff<T>(ps: seq<Piece<T>>, start: u64, end: u64, pos: nat)
    requires Sorted(ps) && start < end && InsertsAt(ps, start, pos)
    ensures !Meets(ps, start, end) <==>
      (pos < |ps| ==> end <= ps[pos].start) && (pos == 0 || ps[pos-1].end <= start)
  {
    assert pos < |ps| ==> ps[pos].start < ps[pos].end;
    assert pos > 0 ==> ps[pos-1].start < ps[pos-1].end;
  }

  /** Inserting an interval adds just its items and its addresses. */
  lemma SplicedItems<T>(ps: seq<Piece<T>>, pos: nat, q: Piece<T>)
    requires pos <= |ps|
    ensures Items(Spliced(ps, pos, q)) == Items(ps) + q.items
  {
    var a, b := ps[..pos], ps[pos..];
    assert ps == a + b && Spliced(ps, pos, q) == a + ([q] + b);
    ItemsConcat(a, b);
    ItemsConcat(a, [q] + b);
    ItemsConcat([q], b);
    assert [q][1..] == [];
  }

  lemma SplicedCovers<T>(ps: seq<Piece<T>>, pos: nat, q: Piece<T>, a: u64)
    requires pos <= |ps|
    ensures Covers(Spliced(ps, pos, q), a) <==> Covers(ps, a) || Within(q, a)
  {
    var out := Spliced(ps, pos, q);
    if Covers(ps, a) {
      var k :| 0 <= k < |ps| && Within(ps[k], a);
      assert Within(out[if k < pos then k else k + 1], a);
    }
    if Within(q, a) { assert Within(out[pos], a); }
  }
}
