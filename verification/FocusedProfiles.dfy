/** The part of a profile that is shown (profileviewer/src/focusedprofiledata.cpp): the ranges that meet
    the focus, clipped to it, with neighbours that are too narrow to tell apart merged. */
module FocusedProfiles {
  import opened Types
  import opened CallTraces
  import opened TraceLaws
  import opened Sorting
  import opened ProfileMerge

  function Min(a: nat, b: nat): nat { if b < a then b else a }

  /** Ranges are closed at both ends. */
  predicate Proper(r: Range) { r.begin <= r.end }

  predicate Intersects(a: Range, b: Range) { Max(a.begin, b.begin) <= Min(a.end, b.end) }

  predicate Inside(a: Range, b: Range) { b.begin <= a.begin && a.end <= b.end }

  /** An assertion fails if this is not a proper range. */
  function Intersection(a: Range, b: Range): (r: Range)
    ensures Proper(r) <==> Intersects(a, b)
    ensures Inside(r, a) && Inside(r, b)
    ensures forall x: Range | Inside(x, a) && Inside(x, b) :: Inside(x, r)
  {
    Range(Max(a.begin, b.begin), Min(a.end, b.end))
  }

  /** An assertion fails if this is not a proper range. */
  function Reunion(a: Range, b: Range): (r: Range)
    ensures Proper(a) && Proper(b) ==> Proper(r)
    ensures Inside(a, r) && Inside(b, r)
    ensures forall x: Range | Inside(a, x) && Inside(b, x) :: Inside(r, x)
  {
    Range(Min(a.begin, b.begin), Max(a.end, b.end))
  }

  /** An assertion fails unless the range is proper. */
  function Width(r: Range): nat
    requires Proper(r)
  {
    r.end - r.begin
  }

  /** The merge threshold is opaque: whether a range of some width is narrow in a focus of some width. */
  type Narrow = (nat, nat) -> bool

  /** Nothing is ever narrow, as with the threshold a viewer starts with. */
  ghost predicate Never(narrow: Narrow) {
    forall a, b :: !narrow(a, b)
  }

  function Clip(r: ProfileRange, focus: Range): ProfileRange {
    r.(range := Intersection(r.range, focus))
  }

  /** What is left of a range in the focus is at its depth, for its symbol, and all that is in both. */
  lemma ClipIs(r: ProfileRange, focus: Range, t: nat)
    ensures Clip(r, focus).depth == r.depth && Clip(r, focus).symbolIndex == r.symbolIndex
    ensures Clip(r, focus).range.begin <= t <= Clip(r, focus).range.end <==>
      r.range.begin <= t <= r.range.end && focus.begin <= t <= focus.end
  {}

  /** One range before the other, by at least `gap`: one where they must not touch, zero where they may. */
  predicate Before(a: ProfileRange, b: ProfileRange, gap: nat) { a.range.end + gap <= b.range.begin }

  /** Ranges of one depth keep that distance. */
  predicate Apart(a: ProfileRange, b: ProfileRange, gap: nat) {
    a.depth == b.depth ==> Before(a, b, gap) || Before(b, a, gap)
  }

  ghost predicate AllApart(s: seq<ProfileRange>, gap: nat) {
    forall i, j {:trigger s[i], s[j]} | 0 <= i < j < |s| :: Apart(s[i], s[j], gap)
  }

  ghost predicate AllProper(s: seq<ProfileRange>) {
    forall i | 0 <= i < |s| :: Proper(s[i].range)
  }

  /** Depth-first order, and ranges of one depth keep their distance. */
  ghost predicate Laid(s: seq<ProfileRange>, gap: nat) {
    AllProper(s) && AllApart(s, gap) && SortedBy(s, DfsBefore)
  }

  /** Where ranges may touch, none is a single point. */
  ghost predicate Wide(s: seq<ProfileRange>, gap: nat) {
    gap == 0 ==> forall i | 0 <= i < |s| :: s[i].range.begin < s[i].range.end
  }

  /** `m` runs from the beginning of one of `ps` to the end of another, all of one depth. */
  ghost predicate Spans(m: ProfileRange, ps: seq<ProfileRange>) {
    exists i, j {:trigger From(m, ps[i]), Until(m, ps[j])} ::
      0 <= i < |ps| && 0 <= j < |ps| && From(m, ps[i]) && Until(m, ps[j])
  }

  ghost predicate From(m: ProfileRange, p: ProfileRange) { m.depth == p.depth && m.range.begin == p.range.begin }

  ghost predicate Until(m: ProfileRange, p: ProfileRange) { m.depth == p.depth && m.range.end == p.range.end }

  ghost predicate CoveredBy(p: ProfileRange, ms: seq<ProfileRange>) {
    exists k {:trigger Covers(ms[k], p)} :: 0 <= k < |ms| && Covers(ms[k], p)
  }

  ghost predicate Covers(m: ProfileRange, p: ProfileRange) { m.depth == p.depth && Inside(p.range, m.range) }

  /** Breadth-first order of ranges that keep their distance: at one depth, one after the other. */
  ghost predicate InRows(ps: seq<ProfileRange>, gap: nat) {
    && AllProper(ps)
    && forall i, j {:trigger ps[i], ps[j]} | 0 <= i < j < |ps| ::
      ps[i].depth <= ps[j].depth && (ps[i].depth == ps[j].depth ==> Before(ps[i], ps[j], gap))
  }

  /** `ms` is what merging neighbours makes of `ps`. */
  ghost predicate MergeOf(ms: seq<ProfileRange>, ps: seq<ProfileRange>, gap: nat) {
    && InRows(ms, gap)
    && (forall k {:trigger Spans(ms[k], ps)} | 0 <= k < |ms| :: Spans(ms[k], ps))
    && (forall i {:trigger CoveredBy(ps[i], ms)} | 0 <= i < |ps| :: CoveredBy(ps[i], ms))
  }

  lemma RowsOf(ps: seq<ProfileRange>, gap: nat)
    requires SortedBy(ps, BfsBefore) && AllApart(ps, gap) && AllProper(ps) && Wide(ps, gap)
    ensures InRows(ps, gap)
  {
    forall i, j {:trigger ps[i], ps[j]} | 0 <= i < j < |ps|
      ensures ps[i].depth <= ps[j].depth && (ps[i].depth == ps[j].depth ==> Before(ps[i], ps[j], gap))
    {
      assert !BfsBefore(ps[j], ps[i]) && Apart(ps[i], ps[j], gap);
    }
  }

  lemma Appended(ms: seq<ProfileRange>, acc: ProfileRange, ps: seq<ProfileRange>, next: ProfileRange, gap: nat)
    requires MergeOf(ms + [acc], ps, gap) && InRows(ps + [next], gap)
    ensures MergeOf(ms + [acc] + [next], ps + [next], gap)
  {
    var before, after, all := ms + [acc], ms + [acc] + [next], ps + [next];
    assert all[|ps|] == next && after[|before|] == next;
    forall k | 0 <= k < |after| ensures Proper(after[k].range) && Spans(after[k], all) {
      if k < |before| {
        assert after[k] == before[k];
        SpansMore(before[k], ps, next);
      } else {
        assert From(next, all[|ps|]) && Until(next, all[|ps|]);
      }
    }
    forall i | 0 <= i < |all| ensures CoveredBy(all[i], after) {
      if i < |ps| {
        assert all[i] == ps[i] && CoveredBy(ps[i], before);
        var k :| 0 <= k < |before| && Covers(before[k], ps[i]);
        assert Covers(after[k], all[i]);
      } else {
        assert Covers(after[|before|], all[i]);
      }
    }
    forall k, l {:trigger after[k], after[l]} | 0 <= k < l < |after|
      ensures after[k].depth <= after[l].depth && (after[k].depth == after[l].depth ==> Before(after[k], after[l], gap))
    {
      assert after[k] == before[k] && Spans(before[k], ps);
      if l < |before| { assert before[k].depth <= before[l].depth; } else { EndsBefore(before[k], ps, next, gap); }
    }
  }

  lemma SpansMore(m: ProfileRange, ps: seq<ProfileRange>, next: ProfileRange)
    requires Spans(m, ps)
    ensures Spans(m, ps + [next])
  {
    var i, j :| 0 <= i < |ps| && 0 <= j < |ps| && From(m, ps[i]) && Until(m, ps[j]);
    assert From(m, (ps + [next])[i]) && Until(m, (ps + [next])[j]);
  }

  lemma EndsBefore(m: ProfileRange, ps: seq<ProfileRange>, next: ProfileRange, gap: nat)
    requires Spans(m, ps) && InRows(ps + [next], gap)
    ensures m.depth == next.depth ==> Before(m, next, gap)
    ensures m.depth <= next.depth
  {
    var i, j :| 0 <= i < |ps| && 0 <= j < |ps| && From(m, ps[i]) && Until(m, ps[j]);
    assert (ps + [next])[j] == ps[j] && (ps + [next])[|ps|] == next;
  }

  lemma WideSpans(acc: ProfileRange, ps: seq<ProfileRange>, next: ProfileRange, wide: ProfileRange)
    requires Spans(acc, ps) && acc.depth == next.depth
    requires wide.depth == acc.depth && wide.range == Range(acc.range.begin, next.range.end)
    ensures Spans(wide, ps + [next])
  {
    var i, j :| 0 <= i < |ps| && 0 <= j < |ps| && From(acc, ps[i]) && Until(acc, ps[j]);
    var all := ps + [next];
    assert all[i] == ps[i] && all[|ps|] == next;
    assert From(wide, all[i]) && Until(wide, all[|ps|]);
  }

  lemma WideCovers(ms: seq<ProfileRange>, acc: ProfileRange, wide: ProfileRange, p: ProfileRange)
    requires CoveredBy(p, ms + [acc])
    requires wide.depth == acc.depth && Inside(acc.range, wide.range)
    ensures CoveredBy(p, ms + [wide])
  {
    var k :| 0 <= k < |ms + [acc]| && Covers((ms + [acc])[k], p);
    assert Covers((ms + [wide])[k], p);
  }

  /** Widening the last range to the next one of its depth. */
  lemma Widened(ms: seq<ProfileRange>, acc: ProfileRange, ps: seq<ProfileRange>, next: ProfileRange,
                wide: ProfileRange, gap: nat)
    requires MergeOf(ms + [acc], ps, gap) && InRows(ps + [next], gap) && acc.depth == next.depth
    requires wide.depth == acc.depth && wide.range == Range(acc.range.begin, next.range.end)
    ensures MergeOf(ms + [wide], ps + [next], gap)
  {
    var before, after, all, last := ms + [acc], ms + [wide], ps + [next], |ms|;
    assert before[last] == acc && after[last] == wide && all[|ps|] == next;
    assert forall k | 0 <= k < last :: after[k] == before[k];
    assert Spans(before[last], ps);
    EndsBefore(acc, ps, next, gap);
    forall k | 0 <= k < |after| ensures Spans(after[k], all) {
      assert Spans(before[k], ps);
      if k < last { SpansMore(before[k], ps, next); } else { WideSpans(acc, ps, next, wide); }
    }
    forall i | 0 <= i < |all| ensures CoveredBy(all[i], after) {
      if i < |ps| {
        assert all[i] == ps[i] && CoveredBy(ps[i], before);
        WideCovers(ms, acc, wide, ps[i]);
      } else {
        assert Covers(after[last], all[i]);
      }
    }
    WidenedRows(ms, acc, ps, next, wide, gap);
  }

  lemma WidenedRows(ms: seq<ProfileRange>, acc: ProfileRange, ps: seq<ProfileRange>, next: ProfileRange,
                    wide: ProfileRange, gap: nat)
    requires MergeOf(ms + [acc], ps, gap) && InRows(ps + [next], gap) && acc.depth == next.depth
    requires wide.depth == acc.depth && wide.range == Range(acc.range.begin, next.range.end)
    ensures InRows(ms + [wide], gap)
  {
    var before, after := ms + [acc], ms + [wide];
    WidthIsProper(ms, acc, ps, next, gap);
    forall k | 0 <= k < |after| ensures Proper(after[k].range) { assert k < |ms| ==> after[k] == before[k]; }
    forall k, l {:trigger after[k], after[l]} | 0 <= k < l < |after|
      ensures after[k].depth <= after[l].depth && (after[k].depth == after[l].depth ==> Before(after[k], after[l], gap))
    {
      assert after[k] == before[k] && before[k].depth <= before[l].depth;
    }
  }

  lemma WidthIsProper(ms: seq<ProfileRange>, acc: ProfileRange, ps: seq<ProfileRange>, next: ProfileRange, gap: nat)
    requires MergeOf(ms + [acc], ps, gap) && InRows(ps + [next], gap) && acc.depth == next.depth
    ensures acc.range.begin <= next.range.end
  {
    assert (ms + [acc])[|ms|] == acc;
    EndsBefore(acc, ps, next, gap);
    assert (ps + [next])[|ps|] == next;
  }

  lemma One(p: ProfileRange, gap: nat)
    requires Proper(p.range)
    ensures MergeOf([p], [p], gap)
  {
    assert From(p, [p][0]) && Until(p, [p][0]) && Covers([p][0], p);
  }

  /** `m` was drawn unmerged, or is narrow. */
  ghost predicate Earned(m: ProfileRange, ps: seq<ProfileRange>, focusWidth: nat, narrow: Narrow) {
    m in ps || (Proper(m.range) && m.symbolIndex == 0 && narrow(Width(m.range), focusWidth))
  }

  /** Neighbours `a` and `b` are told apart: with the first of what `b` is made of, `a` would not be narrow. */
  ghost predicate ToldApart(a: ProfileRange, b: ProfileRange, ps: seq<ProfileRange>, focusWidth: nat, narrow: Narrow) {
    a.depth == b.depth ==>
      exists i {:trigger From(b, ps[i])} | 0 <= i < |ps| ::
        From(b, ps[i]) && a.range.begin <= ps[i].range.end
        && !narrow(Width(Range(a.range.begin, ps[i].range.end)), focusWidth)
  }

  /** Just what is narrow is merged. */
  ghost predicate MergedNarrow(ms: seq<ProfileRange>, ps: seq<ProfileRange>, focusWidth: nat, narrow: Narrow) {
    && (forall k {:trigger Earned(ms[k], ps, focusWidth, narrow)} | 0 <= k < |ms| ::
          Earned(ms[k], ps, focusWidth, narrow))
    && (forall k {:trigger ms[k]} | 0 < k < |ms| :: ToldApart(ms[k-1], ms[k], ps, focusWidth, narrow))
  }

  lemma ToldApartStays(a: ProfileRange, b: ProfileRange, ps: seq<ProfileRange>, next: ProfileRange, b2: ProfileRange,
                       focusWidth: nat, narrow: Narrow)
    requires ToldApart(a, b, ps, focusWidth, narrow) && b2.depth == b.depth && b2.range.begin == b.range.begin
    ensures ToldApart(a, b2, ps + [next], focusWidth, narrow)
  {
    if a.depth == b.depth {
      var i :| 0 <= i < |ps| && From(b, ps[i]) && a.range.begin <= ps[i].range.end
        && !narrow(Width(Range(a.range.begin, ps[i].range.end)), focusWidth);
      assert From(b2, (ps + [next])[i]);
    }
  }

  lemma NarrowStays(ms: seq<ProfileRange>, last: ProfileRange, ps: seq<ProfileRange>, next: ProfileRange,
                    focusWidth: nat, narrow: Narrow, wide: ProfileRange)
    requires MergedNarrow(ms + [last], ps, focusWidth, narrow)
    requires wide.depth == last.depth && wide.range.begin == last.range.begin
    requires Earned(wide, ps + [next], focusWidth, narrow)
    ensures MergedNarrow(ms + [wide], ps + [next], focusWidth, narrow)
  {
    var before, after := ms + [last], ms + [wide];
    forall k | 0 <= k < |after| ensures Earned(after[k], ps + [next], focusWidth, narrow) {
      if k < |ms| {
        assert after[k] == before[k] && Earned(before[k], ps, focusWidth, narrow);
      }
    }
    forall k | 0 < k < |after| ensures ToldApart(after[k-1], after[k], ps + [next], focusWidth, narrow) {
      assert after[k-1] == before[k-1];
      ToldApartStays(before[k-1], before[k], ps, next, after[k], focusWidth, narrow);
    }
  }

  lemma LastKept(ms: seq<ProfileRange>, last: ProfileRange, ps: seq<ProfileRange>, next: ProfileRange,
                 focusWidth: nat, narrow: Narrow)
    requires MergedNarrow(ms + [last], ps, focusWidth, narrow)
    ensures Earned(last, ps + [next], focusWidth, narrow)
  {
    assert (ms + [last])[|ms|] == last && Earned((ms + [last])[|ms|], ps, focusWidth, narrow);
  }

  lemma NarrowAppends(ms: seq<ProfileRange>, ps: seq<ProfileRange>, next: ProfileRange, focusWidth: nat,
                      narrow: Narrow)
    requires ms != [] && MergedNarrow(ms, ps + [next], focusWidth, narrow)
    requires var prev := ms[|ms|-1];
      prev.depth == next.depth ==>
        prev.range.begin <= next.range.end && !narrow(Width(Range(prev.range.begin, next.range.end)), focusWidth)
    ensures MergedNarrow(ms + [next], ps + [next], focusWidth, narrow)
  {
    var after := ms + [next];
    assert (ps + [next])[|ps|] == next;
    forall k | 0 <= k < |after| ensures Earned(after[k], ps + [next], focusWidth, narrow) {
      if k < |ms| { assert after[k] == ms[k] && Earned(ms[k], ps + [next], focusWidth, narrow); }
    }
    forall k | 0 < k < |after| ensures ToldApart(after[k-1], after[k], ps + [next], focusWidth, narrow) {
      if k < |ms| {
        assert after[k-1] == ms[k-1] && after[k] == ms[k];
      } else {
        assert From(next, (ps + [next])[|ps|]);
      }
    }
  }

  /** How far the merging pass has come with the ranges `ps`. */
  ghost predicate Merging(ms: seq<ProfileRange>, ps: seq<ProfileRange>, focusWidth: nat, narrow: Narrow, gap: nat) {
    && MergeOf(ms, ps, gap) && MergedNarrow(ms, ps, focusWidth, narrow)
    && (Never(narrow) ==> ms == ps)
  }

  lemma FirstStep(next: ProfileRange, focusWidth: nat, narrow: Narrow, gap: nat)
    requires Proper(next.range)
    ensures Merging([next], [next], focusWidth, narrow, gap)
  {
    One(next, gap);
    assert next in [next];
  }

  lemma WidenStep(ms: seq<ProfileRange>, prev: ProfileRange, ps: seq<ProfileRange>, next: ProfileRange,
                  focusWidth: nat, narrow: Narrow, gap: nat)
    requires Merging(ms + [prev], ps, focusWidth, narrow, gap) && InRows(ps + [next], gap) && prev.depth == next.depth
    requires var r := Range(prev.range.begin, next.range.end); Proper(r) && narrow(Width(r), focusWidth)
    ensures var wide := ProfileRange(Range(prev.range.begin, next.range.end), 0, prev.depth);
      Merging(ms + [wide], ps + [next], focusWidth, narrow, gap)
  {
    var wide := ProfileRange(Range(prev.range.begin, next.range.end), 0, prev.depth);
    Widened(ms, prev, ps, next, wide, gap);
    NarrowStays(ms, prev, ps, next, focusWidth, narrow, wide);
    assert !Never(narrow);
  }

  lemma AppendStep(ms: seq<ProfileRange>, prev: ProfileRange, ps: seq<ProfileRange>, next: ProfileRange,
                   focusWidth: nat, narrow: Narrow, gap: nat)
    requires Merging(ms + [prev], ps, focusWidth, narrow, gap) && InRows(ps + [next], gap)
    requires prev.depth == next.depth ==>
      prev.range.begin <= next.range.end && !narrow(Width(Range(prev.range.begin, next.range.end)), focusWidth)
    ensures Merging(ms + [prev] + [next], ps + [next], focusWidth, narrow, gap)
  {
    Appended(ms, prev, ps, next, gap);
    LastKept(ms, prev, ps, next, focusWidth, narrow);
    NarrowStays(ms, prev, ps, next, focusWidth, narrow, prev);
    NarrowAppends(ms + [prev], ps, next, focusWidth, narrow);
  }

  /** The merging pass over ranges in breadth-first order: neighbours are merged as long as that is narrow. */
  method MergeRows(ps: seq<ProfileRange>, focusWidth: nat, narrow: Narrow, ghost gap: nat)
    returns (ms: seq<ProfileRange>)
    requires InRows(ps, gap)
    ensures MergeOf(ms, ps, gap) && MergedNarrow(ms, ps, focusWidth, narrow)
    ensures Never(narrow) ==> ms == ps
  {
    ms := [];
    var mergeable: Option<ProfileRange> := None;
    for n := 0 to |ps|
      invariant n == 0 <==> mergeable == None
      invariant if n == 0 then ms == [] else Merging(ms + [mergeable.value], ps[..n], focusWidth, narrow, gap)
    {
      var next := ps[n];
      assert ps[..n+1] == ps[..n] + [next];
      if mergeable.None? {
        mergeable := Some(next);
        FirstStep(next, focusWidth, narrow, gap);
        assert ps[..n+1] == [next] == ms + [next];
      } else {
        var prev := mergeable.value;
        RowsPrefix(ps, n + 1, gap);
        if prev.depth == next.depth { WidthIsProper(ms, prev, ps[..n], next, gap); }
        var tentative := Range(prev.range.begin, next.range.end);
        if prev.depth == next.depth && narrow(Width(tentative), focusWidth) {
          WidenStep(ms, prev, ps[..n], next, focusWidth, narrow, gap);
          mergeable := Some(ProfileRange(tentative, 0, prev.depth));
        } else {
          AppendStep(ms, prev, ps[..n], next, focusWidth, narrow, gap);
          ms := ms + [prev];
          mergeable := Some(next);
        }
      }
    }
    assert ps[..|ps|] == ps;
    if mergeable.Some? { ms := ms + [mergeable.value]; }
  }

  lemma RowsPrefix(ps: seq<ProfileRange>, n: nat, gap: nat)
    requires InRows(ps, gap) && n <= |ps|
    ensures InRows(ps[..n], gap)
  {
    forall i, j {:trigger ps[..n][i], ps[..n][j]} | 0 <= i < j < n
      ensures ps[..n][i].depth <= ps[..n][j].depth
      ensures ps[..n][i].depth == ps[..n][j].depth ==> Before(ps[..n][i], ps[..n][j], gap)
    {
      assert ps[i].depth <= ps[j].depth;
    }
  }

  ghost predicate Drawn(r: ProfileRange, data: seq<ProfileRange>, focus: Range) {
    exists i, j {:trigger DrawnFrom(r, data, focus, i, j)} :: DrawnFrom(r, data, focus, i, j)
  }

  /** `r` runs from where data range `i` begins to where `j` ends, both clipped to the focus. */
  ghost predicate DrawnFrom(r: ProfileRange, data: seq<ProfileRange>, focus: Range, i: int, j: int) {
    && 0 <= i < |data| && 0 <= j < |data| && Intersects(data[i].range, focus) && Intersects(data[j].range, focus)
    && From(r, Clip(data[i], focus)) && Until(r, Clip(data[j], focus))
  }

  ghost predicate Shown(d: ProfileRange, focus: Range, rs: seq<ProfileRange>) {
    Intersects(d.range, focus) ==> CoveredBy(Clip(d, focus), rs)
  }

  /** `rs` shows `data` in `focus`: it lies inside, its ranges of one depth keep their distance, each runs from a
      data range to a data range of its depth, and every data range that meets the focus is covered. */
  ghost predicate Shows(rs: seq<ProfileRange>, data: seq<ProfileRange>, focus: Range, gap: nat) {
    && Laid(rs, gap)
    && (forall k | 0 <= k < |rs| :: Inside(rs[k].range, focus))
    && (forall k {:trigger Drawn(rs[k], data, focus)} | 0 <= k < |rs| :: Drawn(rs[k], data, focus))
    && (forall i {:trigger Shown(data[i], focus, rs)} | 0 <= i < |data| :: Shown(data[i], focus, rs))
  }

  ghost function ClipAll(s: seq<ProfileRange>, focus: Range): (r: seq<ProfileRange>)
    ensures |r| == |s| && forall i | 0 <= i < |s| :: r[i] == Clip(s[i], focus)
  {
    seq(|s|, i requires 0 <= i < |s| => Clip(s[i], focus))
  }

  /** The ranges of `s` that meet the focus, clipped. */
  ghost function Clipped(s: seq<ProfileRange>, focus: Range): seq<ProfileRange> {
    if s == [] then []
    else Clipped(s[..|s|-1], focus) + (if Intersects(s[|s|-1].range, focus) then [Clip(s[|s|-1], focus)] else [])
  }

  function Dropped(s: seq<ProfileRange>, j: nat): seq<ProfileRange>
    requires j < |s|
  {
    s[..j] + s[j+1..]
  }

  lemma DroppedIs(s: seq<ProfileRange>, j: nat)
    requires j < |s|
    ensures multiset(Dropped(s, j)) == multiset(s) - multiset{s[j]}
  {
    assert s == s[..j] + [s[j]] + s[j+1..];
  }

  lemma DroppedClip(s: seq<ProfileRange>, j: nat, focus: Range)
    requires j < |s|
    ensures ClipAll(Dropped(s, j), focus) == Dropped(ClipAll(s, focus), j)
  {}

  lemma SameWithout(s: seq<ProfileRange>, i: nat, t: seq<ProfileRange>, j: nat)
    requires i < |s| && j < |t| && s[i] == t[j] && multiset(Dropped(s, i)) == multiset(Dropped(t, j))
    ensures multiset(s) == multiset(t)
  {
    DroppedIs(s, i);
    DroppedIs(t, j);
    assert multiset(s) == multiset(Dropped(s, i)) + multiset{s[i]};
    assert multiset(t) == multiset(Dropped(t, j)) + multiset{t[j]};
  }

  lemma {:induction false} ClipAllPermutes(s: seq<ProfileRange>, t: seq<ProfileRange>, focus: Range)
    requires multiset(s) == multiset(t)
    ensures multiset(ClipAll(s, focus)) == multiset(ClipAll(t, focus))
    decreases |s|
  {
    assert |multiset(s)| == |s| && |multiset(t)| == |t|;
    if s != [] {
      var j := DropFirst(s, t);
      ClipAllPermutes(Dropped(s, 0), Dropped(t, j), focus);
      DroppedClip(s, 0, focus);
      DroppedClip(t, j, focus);
      SameWithout(ClipAll(s, focus), 0, ClipAll(t, focus), j);
    }
  }

  lemma DropFirst(s: seq<ProfileRange>, t: seq<ProfileRange>) returns (j: nat)
    requires s != [] && multiset(s) == multiset(t)
    ensures j < |t| && t[j] == s[0] && multiset(Dropped(s, 0)) == multiset(Dropped(t, j))
  {
    assert s[0] in multiset(t);
    j :| 0 <= j < |t| && t[j] == s[0];
    DroppedIs(s, 0);
    DroppedIs(t, j);
  }

  /** Where the focus lies in the data: up to `lo` ranges begin no later than it, up to `hi` within it. */
  ghost predicate Located(data: seq<ProfileRange>, focus: Range, lo: nat, hi: nat) {
    && lo <= hi <= |data|
    && (forall k | 0 <= k < lo :: data[k].range.begin <= focus.begin)
    && (forall k | lo <= k < hi :: focus.begin <= data[k].range.begin <= focus.end)
    && (forall k | hi <= k < |data| :: focus.end < data[k].range.begin)
  }

  lemma ClippedStep(data: seq<ProfileRange>, focus: Range, n: nat)
    requires n < |data|
    ensures Clipped(data[..n+1], focus) ==
      Clipped(data[..n], focus) + (if Intersects(data[n].range, focus) then [Clip(data[n], focus)] else [])
  {
    assert data[..n+1][..n] == data[..n];
  }

  lemma ClipAllStep(data: seq<ProfileRange>, focus: Range, lo: nat, n: nat)
    requires lo <= n < |data|
    ensures ClipAll(data[lo..n+1], focus) == ClipAll(data[lo..n], focus) + [Clip(data[n], focus)]
  {}

  lemma MeetsInside(data: seq<ProfileRange>, focus: Range, lo: nat, hi: nat, n: nat)
    requires Located(data, focus, lo, hi) && AllProper(data) && Proper(focus) && lo <= n < |data|
    ensures Intersects(data[n].range, focus) <==> n < hi
  {}

  lemma {:induction false} ClippedSplits(data: seq<ProfileRange>, focus: Range, lo: nat, hi: nat, n: nat, top: nat)
    requires Located(data, focus, lo, hi) && AllProper(data) && Proper(focus) && lo <= n <= |data| && top == Min(n, hi)
    ensures Clipped(data[..n], focus) == Clipped(data[..lo], focus) + ClipAll(data[lo..top], focus)
  {
    var left := Clipped(data[..lo], focus);
    if n == lo {
      assert ClipAll(data[lo..lo], focus) == [] && left + [] == left;
    } else {
      var m := n - 1;
      ClippedSplits(data, focus, lo, hi, m, Min(m, hi));
      MeetsInside(data, focus, lo, hi, m);
      ClippedMore(data, focus, lo, m, Min(m, hi), left);
    }
  }

  lemma ClippedMore(data: seq<ProfileRange>, focus: Range, lo: nat, m: nat, top: nat, left: seq<ProfileRange>)
    requires lo <= top <= m < |data| && (Intersects(data[m].range, focus) ==> top == m)
    requires Clipped(data[..m], focus) == left + ClipAll(data[lo..top], focus)
    ensures Clipped(data[..m+1], focus)
      == left + ClipAll(data[lo..if Intersects(data[m].range, focus) then m + 1 else top], focus)
  {
    ClippedStep(data, focus, m);
    if Intersects(data[m].range, focus) {
      ClipAllStep(data, focus, lo, m);
      Regroup(left, ClipAll(data[lo..m], focus), Clip(data[m], focus));
    } else {
      assert Clipped(data[..m], focus) + [] == Clipped(data[..m], focus);
    }
  }

  lemma Regroup(a: seq<ProfileRange>, b: seq<ProfileRange>, x: ProfileRange)
    ensures a + b + [x] == a + (b + [x])
  {}

  lemma InSlice(data: seq<ProfileRange>, ps: seq<ProfileRange>, lo: nat, hi: nat, i: nat) returns (k: nat)
    requires lo <= hi <= |data| && multiset(ps) == multiset(data[lo..hi]) && i < |ps|
    ensures lo <= k < hi && data[k] == ps[i]
  {
    assert ps[i] in multiset(data[lo..hi]);
    var j :| 0 <= j < hi - lo && data[lo..hi][j] == ps[i];
    k := lo + j;
  }

  lemma SliceIn(data: seq<ProfileRange>, ps: seq<ProfileRange>, lo: nat, hi: nat, k: nat) returns (i: nat)
    requires lo <= k < hi <= |data| && multiset(ps) == multiset(data[lo..hi])
    ensures i < |ps| && ps[i] == data[k]
  {
    assert data[lo..hi][k - lo] == data[k];
    assert data[k] in multiset(ps);
    i :| 0 <= i < |ps| && ps[i] == data[k];
  }

  /** What is pairwise apart stays so in any order. */
  lemma ApartPermutes(s: seq<ProfileRange>, t: seq<ProfileRange>, gap: nat)
    requires multiset(s) == multiset(t) && AllApart(s, gap) && AllProper(s)
    ensures AllApart(t, gap) && AllProper(t)
  {
    forall k | 0 <= k < |t| ensures Proper(t[k].range) {
      assert t[k] in multiset(s);
      var a :| 0 <= a < |s| && s[a] == t[k];
    }
    forall i, j {:trigger t[i], t[j]} | 0 <= i < j < |t| ensures Apart(t[i], t[j], gap) {
      if t[i] == t[j] { Twins(s, t, i, j, gap); } else { BothIn(s, t, i, j, gap); }
    }
  }

  lemma WidePermutes(s: seq<ProfileRange>, t: seq<ProfileRange>, gap: nat)
    requires multiset(s) == multiset(t) && Wide(s, gap)
    ensures Wide(t, gap)
  {
    forall k | 0 <= k < |t| && gap == 0 ensures t[k].range.begin < t[k].range.end {
      assert t[k] in multiset(s);
      var a :| 0 <= a < |s| && s[a] == t[k];
    }
  }

  lemma BothIn(s: seq<ProfileRange>, t: seq<ProfileRange>, i: nat, j: nat, gap: nat)
    requires multiset(s) == multiset(t) && AllApart(s, gap) && i < j < |t| && t[i] != t[j]
    ensures Apart(t[i], t[j], gap)
  {
    assert t[i] in multiset(s) && t[j] in multiset(s);
    var a :| 0 <= a < |s| && s[a] == t[i];
    var b :| 0 <= b < |s| && s[b] == t[j];
    if a < b { assert Apart(s[a], s[b], gap); } else { assert Apart(s[b], s[a], gap); }
  }

  /** Equal ranges are two of `s` as well. */
  lemma Twins(s: seq<ProfileRange>, t: seq<ProfileRange>, i: nat, j: nat, gap: nat)
    requires multiset(s) == multiset(t) && AllApart(s, gap) && i < j < |t| && t[i] == t[j]
    ensures Apart(t[i], t[j], gap)
  {
    DroppedIs(t, j);
    assert Dropped(t, j)[i] == t[i];
    var a, c := TwoPlaces(s, t[i]);
    assert Apart(s[a], s[c], gap);
  }

  lemma TwoPlaces(s: seq<ProfileRange>, x: ProfileRange) returns (a: nat, c: nat)
    requires multiset(s)[x] >= 2
    ensures a < c < |s| && s[a] == x == s[c]
  {
    assert x in multiset(s);
    var i :| 0 <= i < |s| && s[i] == x;
    DroppedIs(s, i);
    assert x in multiset(Dropped(s, i));
    var b :| 0 <= b < |Dropped(s, i)| && Dropped(s, i)[b] == x;
    if b < i { a, c := b, i; } else { a, c := i, b + 1; }
  }

  /** What is shown as `r` is a data range or was merged because it is narrow, clipped. */
  ghost predicate Genuine(r: ProfileRange, data: seq<ProfileRange>, focus: Range, narrow: Narrow)
    requires Proper(focus)
  {
    || (exists i {:trigger data[i]} | 0 <= i < |data| :: Intersects(data[i].range, focus) && r == Clip(data[i], focus))
    || (exists m: ProfileRange {:trigger Clip(m, focus)} ::
          m.symbolIndex == 0 && Proper(m.range) && narrow(Width(m.range), Width(focus)) && r == Clip(m, focus))
  }

  ghost predicate Honest(rs: seq<ProfileRange>, data: seq<ProfileRange>, focus: Range, narrow: Narrow)
    requires Proper(focus)
  {
    forall k {:trigger Genuine(rs[k], data, focus, narrow)} | 0 <= k < |rs| :: Genuine(rs[k], data, focus, narrow)
  }

  /** How the ranges `rs` shown come about: the data ranges that begin in the focus, in rows `ps`, with what is narrow
      merged to `ms`, and those that reach into it from the left, all clipped. */
  ghost predicate Composed(rs: seq<ProfileRange>, data: seq<ProfileRange>, focus: Range, narrow: Narrow, gap: nat,
                           lo: nat, hi: nat, ps: seq<ProfileRange>, ms: seq<ProfileRange>)
    requires Proper(focus)
  {
    && Located(data, focus, lo, hi) && multiset(ps) == multiset(data[lo..hi]) && InRows(ps, gap)
    && MergeOf(ms, ps, gap) && MergedNarrow(ms, ps, Width(focus), narrow)
    && multiset(rs) == multiset(ClipAll(ms, focus) + Clipped(data[..lo], focus))
  }

  lemma AllGenuine(data: seq<ProfileRange>, focus: Range, lo: nat, hi: nat, ps: seq<ProfileRange>,
                   ms: seq<ProfileRange>, all: seq<ProfileRange>, rs: seq<ProfileRange>, narrow: Narrow)
    requires Proper(focus) && AllProper(data) && Located(data, focus, lo, hi) && multiset(ps) == multiset(data[lo..hi])
    requires MergedNarrow(ms, ps, Width(focus), narrow)
    requires all == ClipAll(ms, focus) + Clipped(data[..lo], focus) && multiset(rs) == multiset(all)
    ensures Honest(rs, data, focus, narrow)
  {
    forall k | 0 <= k < |all| ensures Genuine(all[k], data, focus, narrow) {
      if k < |ms| {
        MiddleGenuine(data, focus, lo, hi, ps, ms[k], narrow);
      } else {
        var i := LeftIs(data, focus, lo, k - |ms|);
        assert all[k] == Clip(data[i], focus);
      }
    }
    forall k | 0 <= k < |rs| ensures Genuine(rs[k], data, focus, narrow) {
      assert rs[k] in multiset(all);
      var a :| 0 <= a < |all| && all[a] == rs[k];
    }
  }

  lemma MiddleGenuine(data: seq<ProfileRange>, focus: Range, lo: nat, hi: nat, ps: seq<ProfileRange>, m: ProfileRange,
                      narrow: Narrow)
    requires Proper(focus) && AllProper(data) && Located(data, focus, lo, hi) && multiset(ps) == multiset(data[lo..hi])
    requires Earned(m, ps, Width(focus), narrow)
    ensures Genuine(Clip(m, focus), data, focus, narrow)
  {
    if m in ps {
      var i :| 0 <= i < |ps| && ps[i] == m;
      var k := InSlice(data, ps, lo, hi, i);
      MeetsInside(data, focus, lo, hi, k);
    }
  }

  /** Merged neighbours of the middle ranges, clipped, and the clipped ranges that begin before the focus,
      together show the data. */
  lemma ClippedShow(data: seq<ProfileRange>, focus: Range, lo: nat, hi: nat, ps: seq<ProfileRange>,
                    ms: seq<ProfileRange>, all: seq<ProfileRange>, rs: seq<ProfileRange>, gap: nat)
    requires Laid(data, gap) && Wide(data, gap) && Proper(focus) && Located(data, focus, lo, hi)
    requires multiset(ps) == multiset(data[lo..hi]) && MergeOf(ms, ps, gap)
    requires all == ClipAll(ms, focus) + Clipped(data[..lo], focus)
    requires multiset(rs) == multiset(all) && SortedBy(rs, DfsBefore)
    ensures Shows(rs, data, focus, gap)
  {
    AllFit(data, focus, lo, hi, ps, ms, gap);
    ApartPermutes(all, rs, gap);
    FitPermutes(all, rs, data, focus);
    forall i | 0 <= i < |data| ensures Shown(data[i], focus, rs) {
      if Intersects(data[i].range, focus) {
        AllCovered(data, focus, lo, hi, ps, ms, i, gap);
        CoverPermutes(all, rs, Clip(data[i], focus));
      }
    }
  }

  lemma FitPermutes(all: seq<ProfileRange>, rs: seq<ProfileRange>, data: seq<ProfileRange>, focus: Range)
    requires multiset(rs) == multiset(all)
    requires forall k {:trigger Fits(all[k], data, focus)} | 0 <= k < |all| :: Fits(all[k], data, focus)
    ensures forall k {:trigger Fits(rs[k], data, focus)} | 0 <= k < |rs| :: Fits(rs[k], data, focus)
    ensures forall k | 0 <= k < |rs| :: Inside(rs[k].range, focus)
    ensures forall k {:trigger Drawn(rs[k], data, focus)} | 0 <= k < |rs| :: Drawn(rs[k], data, focus)
  {
    forall k | 0 <= k < |rs| ensures Fits(rs[k], data, focus) {
      assert rs[k] in multiset(all);
      var a :| 0 <= a < |all| && all[a] == rs[k];
      assert Fits(all[a], data, focus);
    }
    forall k | 0 <= k < |rs| ensures Drawn(rs[k], data, focus) { assert Fits(rs[k], data, focus); }
    forall k | 0 <= k < |rs| ensures Inside(rs[k].range, focus) { assert Fits(rs[k], data, focus); }
  }

  lemma CoverPermutes(all: seq<ProfileRange>, rs: seq<ProfileRange>, p: ProfileRange)
    requires multiset(rs) == multiset(all) && CoveredBy(p, all)
    ensures CoveredBy(p, rs)
  {
    var a :| 0 <= a < |all| && Covers(all[a], p);
    assert all[a] in multiset(rs);
    var k :| 0 <= k < |rs| && rs[k] == all[a];
    assert Covers(rs[k], p);
  }

  /** `r` may be shown. */
  ghost predicate Fits(r: ProfileRange, data: seq<ProfileRange>, focus: Range) {
    Proper(r.range) && Inside(r.range, focus) && Drawn(r, data, focus)
  }

  lemma MiddleFits(data: seq<ProfileRange>, focus: Range, lo: nat, hi: nat, ps: seq<ProfileRange>,
                   ms: seq<ProfileRange>, gap: nat)
    requires AllProper(data) && Proper(focus) && Located(data, focus, lo, hi)
    requires multiset(ps) == multiset(data[lo..hi]) && MergeOf(ms, ps, gap)
    ensures forall k | 0 <= k < |ms| :: Intersects(ms[k].range, focus) && ms[k].range.begin >= focus.begin
    ensures forall k {:trigger Fits(ClipAll(ms, focus)[k], data, focus)} | 0 <= k < |ms| ::
      Fits(ClipAll(ms, focus)[k], data, focus)
  {
    forall k | 0 <= k < |ms|
      ensures Intersects(ms[k].range, focus) && ms[k].range.begin >= focus.begin
      ensures Fits(Clip(ms[k], focus), data, focus)
    {
      assert Spans(ms[k], ps);
      var i, j :| 0 <= i < |ps| && 0 <= j < |ps| && From(ms[k], ps[i]) && Until(ms[k], ps[j]);
      var a := InSlice(data, ps, lo, hi, i);
      var b := InSlice(data, ps, lo, hi, j);
      assert Proper(data[a].range) && Proper(data[b].range) && Proper(ms[k].range);
      assert DrawnFrom(Clip(ms[k], focus), data, focus, a, b);
    }
  }

  lemma {:induction false} LeftFits(data: seq<ProfileRange>, focus: Range, n: nat)
    requires n <= |data|
    ensures forall k {:trigger Fits(Clipped(data[..n], focus)[k], data, focus)} |
      0 <= k < |Clipped(data[..n], focus)| ::
      Fits(Clipped(data[..n], focus)[k], data, focus)
  {
    if n > 0 {
      LeftFits(data, focus, n - 1);
      assert data[..n][..n-1] == data[..n-1];
      if Intersects(data[n-1].range, focus) { assert DrawnFrom(Clip(data[n-1], focus), data, focus, n - 1, n - 1); }
    }
  }

  /** Which data range the k-th of the ranges on the left is. */
  lemma {:induction false} LeftIs(data: seq<ProfileRange>, focus: Range, n: nat, k: nat) returns (i: nat)
    requires n <= |data| && k < |Clipped(data[..n], focus)|
    ensures i < n && Intersects(data[i].range, focus) && Clipped(data[..n], focus)[k] == Clip(data[i], focus)
    ensures k == |Clipped(data[..i], focus)|
  {
    assert data[..n][..n-1] == data[..n-1];
    if k < |Clipped(data[..n-1], focus)| { i := LeftIs(data, focus, n - 1, k); } else { i := n - 1; }
  }

  lemma {:induction false} LeftHas(data: seq<ProfileRange>, focus: Range, n: nat, i: nat) returns (k: nat)
    requires i < n <= |data| && Intersects(data[i].range, focus)
    ensures k < |Clipped(data[..n], focus)| && Clipped(data[..n], focus)[k] == Clip(data[i], focus)
  {
    assert data[..n][..n-1] == data[..n-1];
    if i < n - 1 { k := LeftHas(data, focus, n - 1, i); } else { k := |Clipped(data[..n-1], focus)|; }
  }

  /** Ranges of one depth that begin no later than the focus keep their distance when clipped. */
  lemma ApartOnLeft(data: seq<ProfileRange>, focus: Range, lo: nat, i: nat, j: nat, gap: nat)
    requires Laid(data, gap) && i < j < lo <= |data|
    requires data[i].range.begin <= focus.begin && data[j].range.begin <= focus.begin
    requires Intersects(data[i].range, focus) && Intersects(data[j].range, focus)
    ensures Apart(Clip(data[i], focus), Clip(data[j], focus), gap)
  {
    assert Apart(data[i], data[j], gap);
  }

  lemma ApartSum(a: seq<ProfileRange>, b: seq<ProfileRange>, gap: nat)
    requires AllApart(a, gap) && AllApart(b, gap)
    requires forall k, l {:trigger a[k], b[l]} | 0 <= k < |a| && 0 <= l < |b| :: Apart(a[k], b[l], gap)
    ensures AllApart(a + b, gap)
  {
    var all := a + b;
    forall k, l {:trigger all[k], all[l]} | 0 <= k < l < |all| ensures Apart(all[k], all[l], gap) {
      if l < |a| {
        assert all[k] == a[k] && all[l] == a[l];
      } else if k < |a| {
        assert all[k] == a[k] && all[l] == b[l - |a|];
      } else {
        assert all[k] == b[k - |a|] && all[l] == b[l - |a|];
      }
    }
  }

  lemma {:induction false} LeftGrows(data: seq<ProfileRange>, focus: Range, i: nat, j: nat)
    requires i <= j <= |data|
    ensures |Clipped(data[..i], focus)| <= |Clipped(data[..j], focus)|
  {
    if i < j {
      assert data[..j][..j-1] == data[..j-1];
      LeftGrows(data, focus, i, j - 1);
    }
  }

  lemma LeftOrdered(data: seq<ProfileRange>, focus: Range, lo: nat, k: nat, l: nat, i: nat, j: nat)
    requires i < lo <= |data| && j < lo && k == |Clipped(data[..i], focus)| < l == |Clipped(data[..j], focus)|
    ensures i < j
  {
    if j <= i { LeftGrows(data, focus, j, i); }
  }

  lemma LeftApart(data: seq<ProfileRange>, focus: Range, lo: nat, gap: nat)
    requires Laid(data, gap) && lo <= |data| && forall k | 0 <= k < lo :: data[k].range.begin <= focus.begin
    ensures AllApart(Clipped(data[..lo], focus), gap)
  {
    var left := Clipped(data[..lo], focus);
    forall k, l {:trigger left[k], left[l]} | 0 <= k < l < |left| ensures Apart(left[k], left[l], gap) {
      var i := LeftIs(data, focus, lo, k);
      var j := LeftIs(data, focus, lo, l);
      LeftOrdered(data, focus, lo, k, l, i, j);
      ApartOnLeft(data, focus, lo, i, j, gap);
    }
  }

  lemma MiddleApart(ms: seq<ProfileRange>, focus: Range, gap: nat)
    requires InRows(ms, gap) && forall k | 0 <= k < |ms| ::
      Intersects(ms[k].range, focus) && ms[k].range.begin >= focus.begin
    ensures AllApart(ClipAll(ms, focus), gap)
  {
    var mid := ClipAll(ms, focus);
    forall k, l {:trigger mid[k], mid[l]} | 0 <= k < l < |mid| ensures Apart(mid[k], mid[l], gap) {
      assert ms[k].depth == ms[l].depth ==> Before(ms[k], ms[l], gap);
    }
  }

  lemma FitsSum(a: seq<ProfileRange>, b: seq<ProfileRange>, data: seq<ProfileRange>, focus: Range)
    requires forall k {:trigger Fits(a[k], data, focus)} | 0 <= k < |a| :: Fits(a[k], data, focus)
    requires forall k {:trigger Fits(b[k], data, focus)} | 0 <= k < |b| :: Fits(b[k], data, focus)
    ensures AllProper(a + b)
    ensures forall k {:trigger Fits((a + b)[k], data, focus)} | 0 <= k < |a + b| :: Fits((a + b)[k], data, focus)
  {
    forall k | 0 <= k < |a + b| ensures Fits((a + b)[k], data, focus) {
      if k < |a| { assert Fits(a[k], data, focus); } else { assert Fits(b[k - |a|], data, focus); }
    }
    forall k | 0 <= k < |a + b| ensures Proper((a + b)[k].range) { assert Fits((a + b)[k], data, focus); }
  }

  lemma AllFit(data: seq<ProfileRange>, focus: Range, lo: nat, hi: nat, ps: seq<ProfileRange>, ms: seq<ProfileRange>,
               gap: nat)
    requires Laid(data, gap) && Wide(data, gap) && Proper(focus) && Located(data, focus, lo, hi)
    requires multiset(ps) == multiset(data[lo..hi]) && MergeOf(ms, ps, gap)
    ensures var all := ClipAll(ms, focus) + Clipped(data[..lo], focus);
      && AllApart(all, gap) && AllProper(all)
      && forall k {:trigger Fits(all[k], data, focus)} | 0 <= k < |all| :: Fits(all[k], data, focus)
  {
    var mid, left := ClipAll(ms, focus), Clipped(data[..lo], focus);
    MiddleFits(data, focus, lo, hi, ps, ms, gap);
    LeftFits(data, focus, lo);
    FitsSum(mid, left, data, focus);
    MiddleApart(ms, focus, gap);
    LeftApart(data, focus, lo, gap);
    forall k, l {:trigger mid[k], left[l]} | 0 <= k < |mid| && 0 <= l < |left| ensures Apart(mid[k], left[l], gap) {
      MiddleLeft(data, focus, lo, hi, ps, ms, k, l, gap);
    }
    ApartSum(mid, left, gap);
  }

  lemma MiddleLeft(data: seq<ProfileRange>, focus: Range, lo: nat, hi: nat, ps: seq<ProfileRange>,
                   ms: seq<ProfileRange>, k: nat, l: nat, gap: nat)
    requires Laid(data, gap) && Wide(data, gap) && Proper(focus) && Located(data, focus, lo, hi)
    requires multiset(ps) == multiset(data[lo..hi]) && MergeOf(ms, ps, gap)
    requires k < |ms| && l < |Clipped(data[..lo], focus)|
    ensures Apart(ClipAll(ms, focus)[k], Clipped(data[..lo], focus)[l], gap)
  {
    var i := LeftIs(data, focus, lo, l);
    assert Spans(ms[k], ps);
    var a :| 0 <= a < |ps| && From(ms[k], ps[a]);
    var b := InSlice(data, ps, lo, hi, a);
    assert Apart(data[i], data[b], gap) && Proper(data[b].range);
  }

  lemma AllCovered(data: seq<ProfileRange>, focus: Range, lo: nat, hi: nat, ps: seq<ProfileRange>,
                   ms: seq<ProfileRange>, i: nat, gap: nat)
    requires Laid(data, gap) && Wide(data, gap) && Proper(focus) && Located(data, focus, lo, hi)
    requires multiset(ps) == multiset(data[lo..hi]) && MergeOf(ms, ps, gap)
    requires i < |data| && Intersects(data[i].range, focus)
    ensures CoveredBy(Clip(data[i], focus), ClipAll(ms, focus) + Clipped(data[..lo], focus))
  {
    if i < lo {
      var k := LeftHas(data, focus, lo, i);
      CoveredInSum(ClipAll(ms, focus), Clipped(data[..lo], focus), Clip(data[i], focus), |ms| + k);
    } else {
      assert i < hi;
      var a := SliceIn(data, ps, lo, hi, i);
      assert CoveredBy(ps[a], ms);
      var k := ClipCovered(ms, data[i], focus);
      CoveredInSum(ClipAll(ms, focus), Clipped(data[..lo], focus), Clip(data[i], focus), k);
    }
  }

  lemma ClipCovered(ms: seq<ProfileRange>, p: ProfileRange, focus: Range) returns (k: nat)
    requires CoveredBy(p, ms)
    ensures k < |ms| && Covers(ClipAll(ms, focus)[k], Clip(p, focus))
  {
    k :| 0 <= k < |ms| && Covers(ms[k], p);
  }

  lemma CoveredInSum(a: seq<ProfileRange>, b: seq<ProfileRange>, p: ProfileRange, k: nat)
    requires k < |a| + |b| && Covers(if k < |a| then a[k] else b[k - |a|], p)
    ensures CoveredBy(p, a + b)
  {
    assert Covers((a + b)[k], p);
  }

  class FocusedProfileData {
    const data: AllProfileData
    var focusedProfileRanges: seq<ProfileRange>
    var shownRangeStack: seq<Range>
    var narrow: Narrow
    /** What is shown now. */
    ghost var focus: Range
    /** How far apart ranges of one depth are. */
    ghost const gap: nat

    /** The stack holds proper ranges. */
    ghost predicate Sound()
      reads this`shownRangeStack
    {
      && Laid(data.profileRanges, gap) && Wide(data.profileRanges, gap)
      && forall i | 0 <= i < |shownRangeStack| :: Proper(shownRangeStack[i])
    }

    /** The ranges shown show the data in the focus. */
    ghost predicate Valid()
      reads this
    {
      Sound() && Proper(focus) && Shows(focusedProfileRanges, data.profileRanges, focus, gap)
    }

    constructor (data: AllProfileData, ghost gap: nat)
      requires Laid(data.profileRanges, gap) && Wide(data.profileRanges, gap)
      requires forall i | 0 <= i < |data.profileRanges| :: data.profileRanges[i].range.end <= data.maxTick + 1
      ensures Valid() && this.data == data && this.gap == gap && focusedProfileRanges == data.profileRanges
      ensures shownRangeStack == []
      ensures focus == Range(0, data.maxTick + 1) && Never(narrow)
    {
      this.data, this.gap := data, gap;
      focusedProfileRanges, shownRangeStack, narrow := data.profileRanges, [], (_, _) => false;
      focus := Range(0, data.maxTick + 1);
      new;
      ShowsItself(data.profileRanges, focus, gap);
    }

    /** Shows the data in `newFocus`; assertions fail unless that is a proper range. With a threshold that
        nothing is narrow for, exactly the ranges that meet it are shown, clipped. */
    method SetFocusRange(newFocus: Range)
      requires Sound() && Proper(newFocus)
      modifies this`focusedProfileRanges, this`focus
      ensures Valid() && focus == newFocus
      ensures Never(narrow) ==> multiset(focusedProfileRanges) == multiset(Clipped(data.profileRanges, newFocus))
      ensures Honest(focusedProfileRanges, data.profileRanges, newFocus, narrow)
      ensures exists lo, hi, ps, ms ::
        Composed(focusedProfileRanges, data.profileRanges, newFocus, narrow, gap, lo, hi, ps, ms)
    {
      focus := newFocus;
      var begin, end := Locate(newFocus);
      ghost var ps;
      focusedProfileRanges, ps := MergeMiddle(newFocus, begin, end);
      ghost var merged := focusedProfileRanges;
      ClipFocused(newFocus);
      AddFromLeft(newFocus, begin);
      SortFocused(newFocus, begin, end, ps, merged);
    }

    /** Puts what is shown in depth-first order. */
    method SortFocused(newFocus: Range, ghost lo: nat, ghost hi: nat, ghost ps: seq<ProfileRange>,
                       ghost ms: seq<ProfileRange>)
      requires Laid(data.profileRanges, gap) && Wide(data.profileRanges, gap) && Proper(newFocus)
      requires Located(data.profileRanges, newFocus, lo, hi)
      requires multiset(ps) == multiset(data.profileRanges[lo..hi]) && MergeOf(ms, ps, gap)
      requires InRows(ps, gap) && MergedNarrow(ms, ps, Width(newFocus), narrow)
      requires focusedProfileRanges == ClipAll(ms, newFocus) + Clipped(data.profileRanges[..lo], newFocus)
      modifies this`focusedProfileRanges
      ensures Shows(focusedProfileRanges, data.profileRanges, newFocus, gap)
      ensures ms == ps ==> multiset(focusedProfileRanges) == multiset(Clipped(data.profileRanges, newFocus))
      ensures Honest(focusedProfileRanges, data.profileRanges, newFocus, narrow)
      ensures Composed(focusedProfileRanges, data.profileRanges, newFocus, narrow, gap, lo, hi, ps, ms)
    {
      ghost var all := focusedProfileRanges;
      OrdersAreStrictWeak();
      focusedProfileRanges := Sort(focusedProfileRanges, DfsBefore);
      ClippedShow(data.profileRanges, newFocus, lo, hi, ps, ms, all, focusedProfileRanges, gap);
      AllGenuine(data.profileRanges, newFocus, lo, hi, ps, ms, all, focusedProfileRanges, narrow);
      if ms == ps { UnmergedIsClipped(data.profileRanges, newFocus, lo, hi, ps); }
    }

    /** Where the ranges that begin in the focus are. */
    method Locate(newFocus: Range) returns (begin: nat, end: nat)
      requires Sound() && Proper(newFocus)
      ensures Located(data.profileRanges, newFocus, begin, end)
    {
      OrdersAreStrictWeak();
      begin := LowerBound(data.profileRanges, ProfileRange(Range(newFocus.begin, newFocus.begin), 0, 0), DfsBefore);
      end := UpperBound(data.profileRanges, ProfileRange(Range(newFocus.end, newFocus.end), 0, 0), DfsBefore);
      BoundsLocate(data.profileRanges, newFocus, begin, end, gap);
    }

    /** Sorts those ranges breadth first and merges narrow neighbours. */
    method MergeMiddle(newFocus: Range, begin: nat, end: nat)
      returns (ms: seq<ProfileRange>, ghost ps: seq<ProfileRange>)
      requires Sound() && Proper(newFocus) && begin <= end <= |data.profileRanges|
      ensures multiset(ps) == multiset(data.profileRanges[begin..end]) && MergeOf(ms, ps, gap)
      ensures InRows(ps, gap) && MergedNarrow(ms, ps, Width(newFocus), narrow)
      ensures Never(narrow) ==> ms == ps
    {
      OrdersAreStrictWeak();
      var profileRanges := Sort(data.profileRanges[begin..end], BfsBefore);
      SliceLaid(data.profileRanges, begin, end, gap);
      ApartPermutes(data.profileRanges[begin..end], profileRanges, gap);
      WidePermutes(data.profileRanges[begin..end], profileRanges, gap);
      RowsOf(profileRanges, gap);
      ms := MergeRows(profileRanges, Width(newFocus), narrow, gap);
      ps := profileRanges;
    }

    /** Clips every range shown. */
    method ClipFocused(newFocus: Range)
      modifies this`focusedProfileRanges
      ensures focusedProfileRanges == ClipAll(old(focusedProfileRanges), newFocus)
    {
      ghost var before := focusedProfileRanges;
      var i := 0;
      while i < |focusedProfileRanges|
        invariant i <= |focusedProfileRanges| == |before|
        invariant forall k | 0 <= k < i :: focusedProfileRanges[k] == Clip(before[k], newFocus)
        invariant forall k | i <= k < |before| :: focusedProfileRanges[k] == before[k]
      {
        var pr := focusedProfileRanges[i];
        focusedProfileRanges := focusedProfileRanges[i := pr.(range := Intersection(pr.range, newFocus))];
        i := i + 1;
      }
    }

    /** Adds the ranges that begin no later than the focus and reach into it. */
    method AddFromLeft(newFocus: Range, begin: nat)
      requires begin <= |data.profileRanges|
      modifies this`focusedProfileRanges
      ensures focusedProfileRanges == old(focusedProfileRanges) + Clipped(data.profileRanges[..begin], newFocus)
    {
      ghost var before := focusedProfileRanges;
      assert Clipped(data.profileRanges[..0], newFocus) == [];
      for i := 0 to begin
        invariant focusedProfileRanges == before + Clipped(data.profileRanges[..i], newFocus)
      {
        assert data.profileRanges[..i+1][..i] == data.profileRanges[..i];
        if Intersects(newFocus, data.profileRanges[i].range) {
          focusedProfileRanges := focusedProfileRanges + [Clip(data.profileRanges[i], newFocus)];
        }
      }
    }

    /** Shows everything. */
    method Reset()
      requires Sound()
      modifies this`focusedProfileRanges, this`focus
      ensures Valid() && focus == Range(0, data.maxTick + 1)
      ensures Never(narrow) ==>
        multiset(focusedProfileRanges) == multiset(Clipped(data.profileRanges, Range(0, data.maxTick + 1)))
    {
      focusedProfileRanges := [];
      SetFocusRange(Range(0, data.maxTick + 1));
    }

    method SetMergeThreshold(narrow: Narrow)
      requires Sound()
      modifies this`focusedProfileRanges, this`focus, this`narrow
      ensures Valid() && this.narrow == narrow && focus == Range(0, data.maxTick + 1)
    {
      this.narrow := narrow;
      Reset();
    }

    /** The least range around all ranges shown; an assertion fails when none is. */
    method FocusedRange() returns (reunion: Range)
      requires Valid() && focusedProfileRanges != []
      ensures Proper(reunion) && Inside(reunion, focus)
      ensures forall k | 0 <= k < |focusedProfileRanges| :: Inside(focusedProfileRanges[k].range, reunion)
      ensures forall x: Range |
        (forall k | 0 <= k < |focusedProfileRanges| :: Inside(focusedProfileRanges[k].range, x)) :: Inside(reunion, x)
    {
      reunion := focusedProfileRanges[0].range;
      for i := 0 to |focusedProfileRanges|
        invariant Proper(reunion) && Inside(reunion, focus)
        invariant Inside(focusedProfileRanges[0].range, reunion)
        invariant forall k | 0 <= k < i :: Inside(focusedProfileRanges[k].range, reunion)
        invariant forall x: Range {:trigger Inside(reunion, x)} |
            (forall k | 0 <= k < |focusedProfileRanges| :: Inside(focusedProfileRanges[k].range, x)) ::
              Inside(reunion, x)
      {
        reunion := Reunion(reunion, focusedProfileRanges[i].range);
      }
    }

    /** Remembers what is shown. */
    method Push()
      requires Valid() && focusedProfileRanges != []
      modifies this`shownRangeStack
      ensures Valid() && |shownRangeStack| == |old(shownRangeStack)| + 1
      ensures shownRangeStack[..|old(shownRangeStack)|] == old(shownRangeStack)
      ensures var top := shownRangeStack[|shownRangeStack|-1];
        && Inside(top, focus)
        && (forall k | 0 <= k < |focusedProfileRanges| :: Inside(focusedProfileRanges[k].range, top))
        && forall x: Range | (forall k | 0 <= k < |focusedProfileRanges| :: Inside(focusedProfileRanges[k].range, x)) ::
          Inside(top, x)
    {
      var range := FocusedRange();
      shownRangeStack := shownRangeStack + [range];
    }

    /** Goes back to what was remembered before the last push, or to everything. */
    method Pop()
      requires Valid()
      modifies this`focusedProfileRanges, this`focus, this`shownRangeStack
      ensures Valid()
      ensures old(shownRangeStack) == [] ==> unchanged(this)
      ensures old(shownRangeStack) != [] ==>
        && shownRangeStack == old(shownRangeStack)[..|old(shownRangeStack)|-1]
        && focus == if shownRangeStack == [] then Range(0, data.maxTick + 1) else shownRangeStack[|shownRangeStack|-1]
    {
      if shownRangeStack == [] { return; }
      shownRangeStack := shownRangeStack[..|shownRangeStack|-1];
      if shownRangeStack == [] {
        Reset();
      } else {
        var range := shownRangeStack[|shownRangeStack|-1];
        SetFocusRange(range);
      }
    }
  }

  lemma UnmergedIsClipped(data: seq<ProfileRange>, focus: Range, lo: nat, hi: nat, ps: seq<ProfileRange>)
    requires Located(data, focus, lo, hi) && AllProper(data) && Proper(focus) && multiset(ps) == multiset(data[lo..hi])
    ensures multiset(ClipAll(ps, focus) + Clipped(data[..lo], focus)) == multiset(Clipped(data, focus))
  {
    ClipAllPermutes(ps, data[lo..hi], focus);
    ClippedSplits(data, focus, lo, hi, |data|, hi);
    assert data[..|data|] == data;
  }

  lemma BoundsLocate(data: seq<ProfileRange>, focus: Range, lo: nat, hi: nat, gap: nat)
    requires Laid(data, gap) && Proper(focus) && lo <= |data| && hi <= |data|
    requires var fake := ProfileRange(Range(focus.begin, focus.begin), 0, 0);
      (forall k | 0 <= k < lo :: DfsBefore(data[k], fake)) && (forall k | lo <= k < |data| :: !DfsBefore(data[k], fake))
    requires var fake := ProfileRange(Range(focus.end, focus.end), 0, 0);
      (forall k | 0 <= k < hi :: !DfsBefore(fake, data[k])) && (forall k | hi <= k < |data| :: DfsBefore(fake, data[k]))
    ensures Located(data, focus, lo, hi)
  {
    assert forall k {:trigger data[k]} | hi <= k < |data| :: focus.end < data[k].range.begin;
    assert forall k {:trigger data[k]} | 0 <= k < lo :: data[k].range.begin <= focus.begin;
    assert hi < |data| ==> focus.end < data[hi].range.begin;
  }

  lemma SliceLaid(data: seq<ProfileRange>, lo: nat, hi: nat, gap: nat)
    requires Laid(data, gap) && lo <= hi <= |data|
    ensures AllApart(data[lo..hi], gap) && AllProper(data[lo..hi])
    ensures Wide(data, gap) ==> Wide(data[lo..hi], gap)
  {
    forall i, j {:trigger data[lo..hi][i], data[lo..hi][j]} | 0 <= i < j < hi - lo
      ensures Apart(data[lo..hi][i], data[lo..hi][j], gap)
    {
      assert Apart(data[lo + i], data[lo + j], gap);
    }
  }

  /** In a focus around all of it, data shows itself. */
  lemma ShowsItself(data: seq<ProfileRange>, focus: Range, gap: nat)
    requires Laid(data, gap) && Proper(focus) && forall i | 0 <= i < |data| :: Inside(data[i].range, focus)
    ensures Shows(data, data, focus, gap)
  {
    forall i | 0 <= i < |data| ensures Drawn(data[i], data, focus) && Shown(data[i], focus, data) {
      assert Clip(data[i], focus) == data[i];
      assert DrawnFrom(data[i], data, focus, i, i);
      assert Covers(data[i], data[i]);
    }
  }

  /** What the merge of call and return streams makes is such data. Ranges of one depth may touch, and do so
      exactly when some call ties with an earlier return. */
  lemma MergedIsLaid(c: seq<Event>, symbolOf: u64 -> nat)
    requires Balanced(c) && Timely(c) && c != []
    ensures Laid(RangesUpTo(c, |c|, symbolOf), 0) && Wide(RangesUpTo(c, |c|, symbolOf), 0)
    ensures Laid(RangesUpTo(c, |c|, symbolOf), 1) <==> NoTies(c)
    ensures forall r | r in RangesUpTo(c, |c|, symbolOf) :: r.range.end <= c[|c|-1].tick + 1
  {
    MergedKeeps(c, symbolOf, 0);
    if NoTies(c) { MergedKeeps(c, symbolOf, 1); } else { TiesTouch(c, symbolOf); }
  }

  lemma MergedKeeps(c: seq<Event>, symbolOf: u64 -> nat, gap: nat)
    requires Balanced(c) && Timely(c) && c != [] && gap <= if NoTies(c) then 1 else 0
    ensures Laid(RangesUpTo(c, |c|, symbolOf), gap) && Wide(RangesUpTo(c, |c|, symbolOf), gap)
    ensures forall r | r in RangesUpTo(c, |c|, symbolOf) :: r.range.end <= c[|c|-1].tick + 1
  {
    var rs := RangesUpTo(c, |c|, symbolOf);
    forall q | 0 <= q < |rs|
      ensures rs[q].range.begin < rs[q].range.end && rs[q].range.end <= c[|c|-1].tick + 1
    {
      var i := CallPosition(c, |c|, q, symbolOf);
      EndsLater(c, i);
    }
    forall p, q {:trigger rs[p], rs[q]} | 0 <= p < q < |rs|
      ensures Apart(rs[p], rs[q], gap) && !DfsBefore(rs[q], rs[p])
    {
      RangesNest(c, symbolOf, p, q);
      SameDepthApart(c, symbolOf, p, q, gap);
    }
  }

  /** A call that ties with an earlier return ties with the one just before it, whose range it touches. */
  lemma TiesTouch(c: seq<Event>, symbolOf: u64 -> nat)
    requires Balanced(c) && Timely(c) && !NoTies(c)
    ensures !AllApart(RangesUpTo(c, |c|, symbolOf), 1)
  {
    var n := TieBefore(c);
    ReturnEndsTop(c, n);
    CallAfterReturn(c, symbolOf, Open(c[..n])[|Open(c[..n])|-1], n);
  }

  lemma TieBefore(c: seq<Event>) returns (n: nat)
    requires Timely(c) && !NoTies(c)
    ensures n + 1 < |c| && c[n].Returned? && c[n+1].Called? && c[n+1].tick == c[n].tick
  {
    var i, j :| 0 <= i < j < |c| && c[i].Returned? && c[j].Called? && c[i].tick == c[j].tick;
    n := j - 1;
    assert i < n ==> c[i].tick <= c[n].tick;
    assert c[n].tick <= c[j].tick;
  }

  lemma CallAfterReturn(c: seq<Event>, symbolOf: u64 -> nat, i: nat, n: nat)
    requires Timely(c) && Matches(c, i, n) && n + 1 < |c| && c[n+1].Called? && c[n+1].tick == c[n].tick
    ensures !AllApart(RangesUpTo(c, |c|, symbolOf), 1)
  {
    EndAt(c, i, n);
    EndsLater(c, n + 1);
    assert c[i].tick < c[n].tick;
    TouchingAreListed(c, symbolOf, i, n + 1);
  }

  lemma TouchingAreListed(c: seq<Event>, symbolOf: u64 -> nat, i: nat, j: nat)
    requires i < |c| && j < |c| && c[i].Called? && c[j].Called? && Depth(c, i) == Depth(c, j)
    requires c[i].tick < EndOf(c, i) == c[j].tick < EndOf(c, j)
    ensures !AllApart(RangesUpTo(c, |c|, symbolOf), 1)
  {
    RangeIsListed(c, |c|, i, symbolOf);
    RangeIsListed(c, |c|, j, symbolOf);
    TouchingAreNotApart(RangesUpTo(c, |c|, symbolOf), RangeOf(c, i, symbolOf), RangeOf(c, j, symbolOf));
  }

  lemma TouchingAreNotApart(rs: seq<ProfileRange>, a: ProfileRange, b: ProfileRange)
    requires a in rs && b in rs && a.depth == b.depth && a.range.begin < a.range.end == b.range.begin < b.range.end
    ensures !AllApart(rs, 1)
  {
    var p :| 0 <= p < |rs| && rs[p] == a;
    var q :| 0 <= q < |rs| && rs[q] == b;
    assert !Apart(rs[p], rs[q], 1) && !Apart(rs[q], rs[p], 1);
  }

  lemma SameDepthApart(c: seq<Event>, symbolOf: u64 -> nat, p: nat, q: nat, gap: nat)
    requires Balanced(c) && Timely(c) && (gap == 0 || (gap == 1 && NoTies(c))) && p < q < |RangesUpTo(c, |c|, symbolOf)|
    ensures Apart(RangesUpTo(c, |c|, symbolOf)[p], RangesUpTo(c, |c|, symbolOf)[q], gap)
  {
    var rs := RangesUpTo(c, |c|, symbolOf);
    var j := CallPosition(c, |c|, q, symbolOf);
    assert rs[..q][p] == rs[p];
    var i := CallPosition(c, j, p, symbolOf);
    if rs[p].depth == rs[q].depth {
      HeightStep(c, i);
      assert Height(c[..i]) >= 0 && Height(c[..j]) >= 0;
      if m: nat :| m < j && Matches(c, i, m) {
        EndAt(c, i, m);
      } else {
        StillOpen(c, i, j);
      }
    }
  }

  /** A call that has not returned keeps the height above where it was. */
  lemma {:induction false} StillOpen(c: seq<Event>, i: nat, j: nat)
    requires i < j < |c| && c[i].Called? && forall m: nat | m < j :: !Matches(c, i, m)
    ensures forall k | i < k <= j :: Height(c[..k]) > Height(c[..i])
  {
    HeightStep(c, i);
    if j > i + 1 {
      StillOpen(c, i, j - 1);
      HeightStep(c, j - 1);
      assert !Matches(c, i, j - 1);
    }
  }
}
