/** Merging the two recorded streams back into nested ranges
    (profileviewer/src/profiledata.cpp, AllProfileData::tryCreate). */
module ProfileMerge {
  import opened Types
  import opened CallTraces
  import opened TraceLaws
  import opened Sorting

  const UNFINISHED: nat := TWO_TO_THE_64 - 1

  datatype AllProfileData = AllProfileData(profileRanges: seq<ProfileRange>, maxTick: nat, maxDepth: nat)

  /** Depth-first order: by begin, then the longer range first. */
  predicate DfsBefore(a: ProfileRange, b: ProfileRange) {
    if a.range.begin < b.range.begin then true
    else if a.range.begin > b.range.begin then false
    else a.range.end > b.range.end
  }

  /** Breadth-first order: by depth, then by begin. */
  predicate BfsBefore(a: ProfileRange, b: ProfileRange) {
    if a.depth < b.depth then true
    else if a.depth > b.depth then false
    else a.range.begin < b.range.begin
  }

  lemma OrdersAreStrictWeak()
    ensures StrictWeak(DfsBefore) && StrictWeak(BfsBefore)
  {}

  /** Of two different proper ranges, depth first the one that contains the other comes first, or else the one that
      ends before the other begins; breadth first the one less deep does or, at one depth, that on the left. */
  lemma OrdersAre(a: ProfileRange, b: ProfileRange)
    requires a.range.begin < a.range.end && b.range.begin < b.range.end && a.range != b.range
    ensures Contains(a.range, b.range) || a.range.end <= b.range.begin ==> DfsBefore(a, b) && !DfsBefore(b, a)
    ensures a.depth < b.depth || (a.depth == b.depth && a.range.end <= b.range.begin) ==>
      BfsBefore(a, b) && !BfsBefore(b, a)
  {}

  /** A strictly ascending list is the only sorted arrangement of its ranges. */
  lemma {:induction false} SortedIsUnique(a: seq<ProfileRange>, b: seq<ProfileRange>)
    requires multiset(a) == multiset(b) && SortedBy(a, DfsBefore)
    requires forall i, j | 0 <= i < j < |b| :: b[i].range.begin < b[j].range.begin
    ensures a == b
  {
    assert |multiset(a)| == |a| && |multiset(b)| == |b|;
    if b != [] {
      SameFirst(a, b);
      TailOf(a);
      TailOf(b);
      SortedIsUnique(a[1..], b[1..]);
      assert a == [a[0]] + a[1..] && b == [b[0]] + b[1..];
    }
  }

  lemma SameFirst(a: seq<ProfileRange>, b: seq<ProfileRange>)
    requires a != [] && b != [] && multiset(a) == multiset(b) && SortedBy(a, DfsBefore)
    requires forall i, j | 0 <= i < j < |b| :: b[i].range.begin < b[j].range.begin
    ensures a[0] == b[0]
  {
    assert a[0] in multiset(b) && b[0] in multiset(a);
    var i :| 0 <= i < |b| && b[i] == a[0];
    var j :| 0 <= j < |a| && a[j] == b[0];
    assert j == 0 || !DfsBefore(a[j], a[0]);
  }

  lemma TailOf(s: seq<ProfileRange>)
    requires s != []
    ensures multiset(s[1..]) == multiset(s) - multiset{s[0]}
  {
    assert s == [s[0]] + s[1..];
  }

  lemma MoveOne(produced: seq<ProfileRange>, rest: seq<ProfileRange>, r: ProfileRange)
    ensures multiset(produced + [r]) + multiset(rest) == multiset(produced) + multiset(rest + [r])
  {}

  lemma AddBoth(produced: seq<ProfileRange>, rest: seq<ProfileRange>, all: seq<ProfileRange>, r: ProfileRange)
    requires multiset(produced) + multiset(rest) == multiset(all)
    ensures multiset(produced) + multiset(rest + [r]) == multiset(all + [r])
  {}

  /** The highest the stack gets. */
  ghost function MaxHeight(tr: seq<Event>): nat {
    if tr == [] then 0
    else if Height(tr) > MaxHeight(tr[..|tr|-1]) then Height(tr) else MaxHeight(tr[..|tr|-1])
  }

  /** It is reached, and not exceeded. */
  lemma {:induction false} MaxHeightIs(tr: seq<Event>)
    ensures exists k {:trigger tr[..k]} | 0 <= k <= |tr| :: Height(tr[..k]) == MaxHeight(tr)
    ensures forall k | 0 <= k <= |tr| :: Height(tr[..k]) <= MaxHeight(tr)
  {
    assert tr[..|tr|] == tr;
    if tr != [] {
      var before := tr[..|tr|-1];
      MaxHeightIs(before);
      assert forall k | 0 <= k < |tr| :: before[..k] == tr[..k];
      var k :| 0 <= k <= |before| && Height(before[..k]) == MaxHeight(before);
      assert Height(tr[..k]) == MaxHeight(before);
    }
  }

  ghost function OpenRanges(tr: seq<Event>, open: seq<nat>, symbolOf: u64 -> nat): (rs: seq<ProfileRange>)
    requires forall m | 0 <= m < |open| :: open[m] < |tr| && tr[open[m]].Called?
    ensures |rs| == |open|
  {
    seq(|open|, m requires 0 <= m < |open| => RangeOf(tr, open[m], symbolOf))
  }

  /** What the merge has done after `p` events of the consumed run `c`, in which the calls `open` are
      open: the stack holds those, and with the ranges produced so far they make up all ranges of calls
      seen. */
  ghost predicate MergedWith(c: seq<Event>, p: nat, open: seq<nat>, stack: seq<ProfileRange>,
                             produced: seq<ProfileRange>, symbolOf: u64 -> nat)
    requires p <= |c|
  {
    && (forall m | 0 <= m < |open| :: open[m] < p && c[open[m]].Called?)
    && |stack| == |open|
    && (forall m | 0 <= m < |stack| ::
          stack[m] == RangeOf(c, open[m], symbolOf).(range := Range(c[open[m]].tick, UNFINISHED)))
    && multiset(produced) + multiset(OpenRanges(c, open, symbolOf)) == multiset(RangesUpTo(c, p, symbolOf))
  }

  ghost predicate Merged(c: seq<Event>, p: nat, stack: seq<ProfileRange>, produced: seq<ProfileRange>,
                         symbolOf: u64 -> nat)
    requires p <= |c|
  {
    MergedWith(c, p, Open(c[..p]), stack, produced, symbolOf)
  }

  lemma MergedCallWith(c: seq<Event>, p: nat, open: seq<nat>, stack: seq<ProfileRange>, produced: seq<ProfileRange>,
                       symbolOf: u64 -> nat)
    requires p < |c| && MergedWith(c, p, open, stack, produced, symbolOf) && c[p].Called? && |open| == Height(c[..p])
    ensures MergedWith(c, p + 1, open + [p],
      stack + [ProfileRange(Range(c[p].tick, UNFINISHED), symbolOf(c[p].address), |stack|)], produced, symbolOf)
  {
    assert OpenRanges(c, open + [p], symbolOf) == OpenRanges(c, open, symbolOf) + [RangeOf(c, p, symbolOf)];
    assert RangesUpTo(c, p + 1, symbolOf) == RangesUpTo(c, p, symbolOf) + [RangeOf(c, p, symbolOf)];
    AddBoth(produced, OpenRanges(c, open, symbolOf), RangesUpTo(c, p, symbolOf), RangeOf(c, p, symbolOf));
  }

  lemma MergedCall(c: seq<Event>, p: nat, stack: seq<ProfileRange>, produced: seq<ProfileRange>, symbolOf: u64 -> nat)
    requires Balanced(c) && p < |c| && Merged(c, p, stack, produced, symbolOf) && c[p].Called?
    ensures Merged(c, p + 1, stack + [ProfileRange(Range(c[p].tick, UNFINISHED), symbolOf(c[p].address), |stack|)],
                   produced, symbolOf)
  {
    OpenIs(c, p);
    OpenStep(c, p);
    MergedCallWith(c, p, Open(c[..p]), stack, produced, symbolOf);
  }

  lemma MergedReturnWith(c: seq<Event>, p: nat, open: seq<nat>, stack: seq<ProfileRange>, produced: seq<ProfileRange>,
                         symbolOf: u64 -> nat)
    requires p < |c| && MergedWith(c, p, open, stack, produced, symbolOf) && c[p].Returned?
    requires open != [] && Matches(c, open[|open|-1], p)
    ensures stack != []
    ensures var top := stack[|stack|-1];
      MergedWith(c, p + 1, open[..|open|-1], stack[..|stack|-1],
                 produced + [top.(range := top.range.(end := c[p].tick))], symbolOf)
  {
    var top, i, fewer := stack[|stack|-1], open[|open|-1], open[..|open|-1];
    EndAt(c, i, p);
    assert top.(range := top.range.(end := c[p].tick)) == RangeOf(c, i, symbolOf);
    assert RangesUpTo(c, p + 1, symbolOf) == RangesUpTo(c, p, symbolOf);
    OpenRangesLast(c, open, symbolOf);
    MoveOne(produced, OpenRanges(c, fewer, symbolOf), RangeOf(c, i, symbolOf));
  }

  lemma MergedReturn(c: seq<Event>, p: nat, stack: seq<ProfileRange>, produced: seq<ProfileRange>, symbolOf: u64 -> nat)
    requires Balanced(c) && p < |c| && Merged(c, p, stack, produced, symbolOf) && c[p].Returned?
    ensures stack != []
    ensures var top := stack[|stack|-1];
      Merged(c, p + 1, stack[..|stack|-1], produced + [top.(range := top.range.(end := c[p].tick))], symbolOf)
  {
    ReturnEndsTop(c, p);
    OpenStep(c, p);
    MergedReturnWith(c, p, Open(c[..p]), stack, produced, symbolOf);
  }

  lemma OpenRangesLast(tr: seq<Event>, open: seq<nat>, symbolOf: u64 -> nat)
    requires forall m | 0 <= m < |open| :: open[m] < |tr| && tr[open[m]].Called?
    requires open != []
    ensures OpenRanges(tr, open, symbolOf) ==
      OpenRanges(tr, open[..|open|-1], symbolOf) + [RangeOf(tr, open[|open|-1], symbolOf)]
  {}

  /** The two iterators stand where the run has its event `p`. */
  ghost predicate Cursor(tr: seq<Event>, p: nat, calls: seq<CallEvent>, rets: seq<RetEvent>, ci: nat, ri: nat) {
    && p <= |tr| && ci <= |calls| && ri <= |rets|
    && calls[ci..] == Calls(tr[p..]) && rets[ri..] == Rets(tr[p..])
    && MergeLen(tr) == p + MergeLen(tr[p..])
  }

  lemma {:induction false} FirstCall(tr: seq<Event>) returns (q: nat)
    requires Calls(tr) != []
    ensures q < |tr| && tr[q].Called? && Calls(tr)[0] == CallEvent(tr[q].tick, tr[q].address)
    ensures forall k | 0 <= k < q :: tr[k].Returned?
  {
    if tr[0].Called? {
      q := 0;
    } else {
      q := FirstCall(tr[1..]);
      q := q + 1;
    }
  }

  lemma {:induction false} FirstRet(tr: seq<Event>) returns (q: nat)
    requires Rets(tr) != []
    ensures q < |tr| && tr[q].Returned? && Rets(tr)[0] == RetEvent(tr[q].tick)
    ensures forall k | 0 <= k < q :: tr[k].Called?
  {
    if tr[0].Returned? {
      q := 0;
    } else {
      q := FirstRet(tr[1..]);
      q := q + 1;
    }
  }

  /** Taking the call when its tick is lower, and the return otherwise, takes the next event of the run.
      Equal ticks are seen exactly when this event is a return that the next call ties with. */
  lemma NextIsTaken(tr: seq<Event>, p: nat, calls: seq<CallEvent>, rets: seq<RetEvent>, ci: nat, ri: nat)
    requires Timely(tr) && Cursor(tr, p, calls, rets, ci, ri) && ci < |calls| && ri < |rets|
    ensures p < MergeLen(tr)
    ensures calls[ci].tick < rets[ri].tick <==> tr[p].Called?
    ensures tr[p].Called? ==>
      calls[ci] == CallEvent(tr[p].tick, tr[p].address) && Cursor(tr, p + 1, calls, rets, ci + 1, ri)
    ensures tr[p].Returned? ==> rets[ri] == RetEvent(tr[p].tick) && Cursor(tr, p + 1, calls, rets, ci, ri + 1)
    ensures calls[ci].tick == rets[ri].tick <==>
      tr[p].Returned? && exists q | p < q < |tr| :: tr[q].Called? && tr[q].tick == tr[p].tick
  {
    var rest := tr[p..];
    assert rest[1..] == tr[p+1..];
    assert calls[ci] == Calls(rest)[0] && rets[ri] == Rets(rest)[0];
    var c := FirstCall(rest);
    var r := FirstRet(rest);
    assert rest[c] == tr[p+c] && rest[r] == tr[p+r];
    assert calls[ci+1..] == calls[ci..][1..] && rets[ri+1..] == rets[ri..][1..];
    if q :| p < q < |tr| && tr[p].Returned? && tr[q].Called? && tr[q].tick == tr[p].tick {
      assert tr[q] == rest[q-p];
      assert p + c <= q;
    }
  }

  /** When one stream is exhausted the merge has consumed what it ever will. */
  lemma MergeEnds(tr: seq<Event>, p: nat, calls: seq<CallEvent>, rets: seq<RetEvent>, ci: nat, ri: nat)
    requires Cursor(tr, p, calls, rets, ci, ri) && (ci == |calls| || ri == |rets|)
    ensures p == MergeLen(tr)
    ensures forall i, j | p <= i < j < |tr| :: !(tr[i].Returned? && tr[j].Called?)
  {
    NoCall(tr[p..]);
    forall i, j | p <= i < j < |tr| ensures !(tr[i].Returned? && tr[j].Called?) {
      assert tr[p..][i-p] == tr[i] && tr[p..][j-p] == tr[j];
    }
  }

  lemma PrefixWellFormed(tr: seq<Event>, n: nat)
    requires Balanced(tr) && Timely(tr) && n <= |tr|
    ensures Balanced(tr[..n]) && Timely(tr[..n])
  {
    assert forall k | 0 <= k <= n :: tr[..n][..k] == tr[..k];
  }

  /** A call still open after the whole run has no return: it ends one tick after everything. */
  lemma OpenEndsLast(c: seq<Event>, i: nat)
    requires Balanced(c) && c != [] && i in Open(c[..|c|])
    ensures i < |c| && EndOf(c, i) == c[|c|-1].tick + 1
  {
    OpenIs(c, |c|);
    OpenIsCalled(c, |c|, i);
    forall j: nat ensures !Matches(c, i, j) {
      assert i < j < |c| ==> Height(c[..j+1]) > Height(c[..i]);
    }
  }

  /** The variables of the merge loop. */
  datatype MergeState = MergeState(ci: nat, ri: nat, stack: seq<ProfileRange>, produced: seq<ProfileRange>,
                                   maxTick: nat, maxDepth: nat, asserts: bool)

  /** What the loop has done after `p` events of the consumed run `c`. */
  ghost predicate InMerge(c: seq<Event>, p: nat, m: MergeState, symbolOf: u64 -> nat)
    requires p <= |c|
  {
    && Merged(c, p, m.stack, m.produced, symbolOf)
    && m.maxTick == (if p == 0 then 0 else c[p-1].tick) && m.maxDepth == MaxHeight(c[..p])
  }

  lemma CallTaken(c: seq<Event>, p: nat, m: MergeState, stack: seq<ProfileRange>, symbolOf: u64 -> nat)
    requires Balanced(c) && Timely(c) && p < |c| && c[p].Called? && InMerge(c, p, m, symbolOf)
    requires stack == m.stack + [ProfileRange(Range(c[p].tick, UNFINISHED), symbolOf(c[p].address), |m.stack|)]
    ensures InMerge(c, p + 1, m.(ci := m.ci + 1, stack := stack, maxTick := Max(m.maxTick, c[p].tick),
                                 maxDepth := Max(m.maxDepth, |stack|)), symbolOf)
  {
    MergedCall(c, p, m.stack, m.produced, symbolOf);
    StackIsHigh(c, p + 1, stack, m.produced, symbolOf);
    assert c[..p+1][..p] == c[..p];
  }

  lemma ReturnTaken(c: seq<Event>, p: nat, m: MergeState, tie: bool, symbolOf: u64 -> nat)
    requires Balanced(c) && Timely(c) && p < |c| && c[p].Returned? && InMerge(c, p, m, symbolOf)
    ensures m.stack != []
    ensures var top := m.stack[|m.stack|-1];
      InMerge(c, p + 1, m.(ri := m.ri + 1, stack := m.stack[..|m.stack|-1],
                           produced := m.produced + [top.(range := top.range.(end := c[p].tick))],
                           maxTick := Max(m.maxTick, c[p].tick), asserts := m.asserts && !tie), symbolOf)
  {
    MergedReturn(c, p, m.stack, m.produced, symbolOf);
    ReturnIsNoPeak(c, p);
  }

  lemma ReturnIsNoPeak(c: seq<Event>, p: nat)
    requires p < |c| && c[p].Returned? && Timely(c)
    ensures MaxHeight(c[..p+1]) == MaxHeight(c[..p])
    ensures p > 0 ==> c[p-1].tick <= c[p].tick
  {
    HeightStep(c, p);
    assert c[..p+1][..p] == c[..p];
    HeightBelowMax(c[..p]);
  }

  lemma HeightBelowMax(tr: seq<Event>)
    ensures Height(tr) <= MaxHeight(tr)
  {}

  lemma TieSeen(tr: seq<Event>, p: nat, tie: bool)
    requires p < |tr| && tr[p].Returned?
    requires tie <==> exists q | p < q < |tr| :: tr[q].Called? && tr[q].tick == tr[p].tick
    ensures NoTiesBefore(tr, p + 1) <==> NoTiesBefore(tr, p) && !tie
  {
    if tie {
      var q :| p < q < |tr| && tr[q].Called? && tr[q].tick == tr[p].tick;
    }
  }

  /** The merge loop. `asserts` turns false when two compared ticks are equal, which an assertion rules
      out in debug builds; release builds then take the return. */
  method MergeStreams(calls: seq<CallEvent>, rets: seq<RetEvent>, symbolOf: u64 -> nat, ghost tr: seq<Event>)
    returns (m: MergeState)
    requires calls == Calls(tr) && rets == Rets(tr) && Balanced(tr) && Timely(tr)
    ensures var c := tr[..MergeLen(tr)];
      && Merged(c, |c|, m.stack, m.produced, symbolOf)
      && m.maxTick == (if c == [] then 0 else c[|c|-1].tick) && m.maxDepth == MaxHeight(c)
    ensures m.asserts <==> NoTies(tr)
  {
    m := MergeState(0, 0, [], [], 0, 0, true);
    ghost var c, p: nat := tr[..MergeLen(tr)], 0;
    PrefixWellFormed(tr, MergeLen(tr));
    StartMerge(tr, c, symbolOf);
    while m.ci < |calls| && m.ri < |rets|
      invariant p <= |c| && Cursor(tr, p, calls, rets, m.ci, m.ri)
      invariant InMerge(c, p, m, symbolOf)
      invariant m.asserts <==> NoTiesBefore(tr, p)
      decreases |calls| + |rets| - (m.ci + m.ri)
    {
      m := TakeNext(calls, rets, m, symbolOf, tr, c, p);
      p := p + 1;
    }
    MergeEnds(tr, p, calls, rets, m.ci, m.ri);
    assert c[..p] == c;
  }

  /** One turn of the loop: the stream with the lower tick advances. */
  method TakeNext(calls: seq<CallEvent>, rets: seq<RetEvent>, m: MergeState, symbolOf: u64 -> nat,
                  ghost tr: seq<Event>, ghost c: seq<Event>, ghost p: nat) returns (n: MergeState)
    requires c == tr[..MergeLen(tr)] && p <= |c| && Cursor(tr, p, calls, rets, m.ci, m.ri)
    requires Timely(tr) && Balanced(c) && Timely(c) && InMerge(c, p, m, symbolOf)
    requires m.ci < |calls| && m.ri < |rets| && (m.asserts <==> NoTiesBefore(tr, p))
    ensures p < |c| && Cursor(tr, p + 1, calls, rets, n.ci, n.ri) && InMerge(c, p + 1, n, symbolOf)
    ensures n.asserts <==> NoTiesBefore(tr, p + 1)
    ensures n.ci + n.ri == m.ci + m.ri + 1
  {
    NextIsTaken(tr, p, calls, rets, m.ci, m.ri);
    if calls[m.ci].tick < rets[m.ri].tick {
      n := TakeCall(calls[m.ci], m, symbolOf, c, p);
      NoTieAtCall(tr, p);
    } else {
      n := TakeReturn(rets[m.ri], calls[m.ci].tick == rets[m.ri].tick, m, symbolOf, c, p);
      TieSeen(tr, p, calls[m.ci].tick == rets[m.ri].tick);
    }
  }

  method TakeCall(e: CallEvent, m: MergeState, symbolOf: u64 -> nat, ghost c: seq<Event>, ghost p: nat)
    returns (n: MergeState)
    requires Balanced(c) && Timely(c) && p < |c| && c[p].Called? && InMerge(c, p, m, symbolOf)
    requires e == CallEvent(c[p].tick, c[p].address)
    ensures InMerge(c, p + 1, n, symbolOf) && n.ci == m.ci + 1 && n.ri == m.ri && n.asserts == m.asserts
  {
    var stack := m.stack + [ProfileRange(Range(e.tick, UNFINISHED), symbolOf(e.address), |m.stack|)];
    n := m.(ci := m.ci + 1, stack := stack, maxTick := Max(m.maxTick, e.tick), maxDepth := Max(m.maxDepth, |stack|));
    CallTaken(c, p, m, stack, symbolOf);
  }

  method TakeReturn(e: RetEvent, tie: bool, m: MergeState, symbolOf: u64 -> nat, ghost c: seq<Event>, ghost p: nat)
    returns (n: MergeState)
    requires Balanced(c) && Timely(c) && p < |c| && c[p].Returned? && InMerge(c, p, m, symbolOf)
    requires e == RetEvent(c[p].tick)
    ensures InMerge(c, p + 1, n, symbolOf) && n.ci == m.ci && n.ri == m.ri + 1 && n.asserts == (m.asserts && !tie)
  {
    ReturnTaken(c, p, m, tie, symbolOf);
    var pr := m.stack[|m.stack|-1];
    n := m.(ri := m.ri + 1, stack := m.stack[..|m.stack|-1],
            produced := m.produced + [pr.(range := pr.range.(end := e.tick))],
            maxTick := Max(m.maxTick, e.tick), asserts := m.asserts && !tie);
  }

  lemma NoTieAtCall(tr: seq<Event>, p: nat)
    requires p < |tr| && tr[p].Called?
    ensures NoTiesBefore(tr, p + 1) <==> NoTiesBefore(tr, p)
  {}

  function Max(a: nat, b: nat): nat { if a < b then b else a }

  /** No call ties with one of the first `p` returns. */
  ghost predicate NoTiesBefore(tr: seq<Event>, p: nat) {
    forall i, j {:trigger tr[i].tick, tr[j].tick} | 0 <= i < j < |tr| && i < p && tr[i].Returned? && tr[j].Called? ::
      tr[i].tick != tr[j].tick
  }

  lemma StartMerge(tr: seq<Event>, c: seq<Event>, symbolOf: u64 -> nat)
    ensures Cursor(tr, 0, Calls(tr), Rets(tr), 0, 0)
    ensures InMerge(c, 0, MergeState(0, 0, [], [], 0, 0, true), symbolOf)
  {
    assert tr[0..] == tr && c[..0] == [];
    assert Calls(tr)[0..] == Calls(tr) && Rets(tr)[0..] == Rets(tr);
  }

  lemma StackIsHigh(c: seq<Event>, p: nat, stack: seq<ProfileRange>, produced: seq<ProfileRange>, symbolOf: u64 -> nat)
    requires Balanced(c) && p <= |c| && Merged(c, p, stack, produced, symbolOf)
    ensures |stack| == Height(c[..p])
  {
    OpenIs(c, p);
  }

  /** AllProfileData::tryCreate, up to symbols and system calls: nothing without calls and returns, else
      exactly the ranges of the calls consumed, in call order, which is depth-first order. */
  method TryCreate(calls: seq<CallEvent>, rets: seq<RetEvent>, symbolOf: u64 -> nat, ghost tr: seq<Event>)
    returns (data: Option<AllProfileData>, asserts: bool)
    requires calls == Calls(tr) && rets == Rets(tr) && Balanced(tr) && Timely(tr)
    ensures data.None? <==> calls == [] || rets == []
    ensures data.Some? ==>
      var c := tr[..MergeLen(tr)];
      && c != [] && data.value == AllProfileData(RangesUpTo(c, |c|, symbolOf), c[|c|-1].tick, MaxHeight(c))
    ensures data.Some? ==> (asserts <==> NoTies(tr))
  {
    if calls == [] || rets == [] { return None, true; }
    var m := MergeStreams(calls, rets, symbolOf, tr);
    asserts := m.asserts;
    ghost var c := tr[..MergeLen(tr)];
    PrefixWellFormed(tr, MergeLen(tr));
    ghost var open := Open(c[..|c|]);
    forall i | 0 <= i < |open| ensures EndOf(c, open[i]) == m.maxTick + 1 { OpenEndsLast(c, open[i]); }
    var ranges := CloseOpen(m.produced, m.stack, m.maxTick, symbolOf, c, open);
    OrdersAreStrictWeak();
    ranges := Sort(ranges, DfsBefore);
    CallOrderAscends(c, symbolOf);
    SortedIsUnique(ranges, RangesUpTo(c, |c|, symbolOf));
    data := Some(AllProfileData(ranges, m.maxTick, m.maxDepth));
  }

  /** Calls that are still on the stack end one tick after everything. */
  method CloseOpen(produced: seq<ProfileRange>, stack: seq<ProfileRange>, maxTick: nat, symbolOf: u64 -> nat,
                   ghost c: seq<Event>, ghost open: seq<nat>) returns (ranges: seq<ProfileRange>)
    requires MergedWith(c, |c|, open, stack, produced, symbolOf)
    requires forall m | 0 <= m < |open| :: EndOf(c, open[m]) == maxTick + 1
    ensures multiset(ranges) == multiset(RangesUpTo(c, |c|, symbolOf))
  {
    ranges := produced;
    var left := stack;
    ghost var rest := open;
    while left != []
      invariant MergedWith(c, |c|, rest, left, ranges, symbolOf)
      invariant forall m | 0 <= m < |rest| :: EndOf(c, rest[m]) == maxTick + 1
      decreases |left|
    {
      CloseOne(c, rest, left, ranges, symbolOf);
      var pr := left[|left|-1];
      left := left[..|left|-1];
      pr := pr.(range := pr.range.(end := maxTick + 1));
      ranges := ranges + [pr];
      rest := rest[..|rest|-1];
    }
  }

  lemma CloseOne(c: seq<Event>, open: seq<nat>, stack: seq<ProfileRange>, produced: seq<ProfileRange>,
                 symbolOf: u64 -> nat)
    requires MergedWith(c, |c|, open, stack, produced, symbolOf) && stack != []
    ensures var top, i := stack[|stack|-1], open[|open|-1];
      MergedWith(c, |c|, open[..|open|-1], stack[..|stack|-1],
                 produced + [top.(range := top.range.(end := EndOf(c, i)))], symbolOf)
  {
    var i := open[|open|-1];
    OpenRangesLast(c, open, symbolOf);
    MoveOne(produced, OpenRanges(c, open[..|open|-1], symbolOf), RangeOf(c, i, symbolOf));
  }

  /** Later calls begin later. */
  lemma CallOrderAscends(c: seq<Event>, symbolOf: u64 -> nat)
    requires Balanced(c) && Timely(c)
    ensures var rs := RangesUpTo(c, |c|, symbolOf);
      forall i, j | 0 <= i < j < |rs| :: rs[i].range.begin < rs[j].range.begin
  {
    var rs := RangesUpTo(c, |c|, symbolOf);
    forall i, j | 0 <= i < j < |rs| ensures rs[i].range.begin < rs[j].range.begin { RangesNest(c, symbolOf, i, j); }
  }
}
