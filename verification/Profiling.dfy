/** Call profiling from end to end: what a thread records is what the viewer shows. */
module Profiling {
  import opened Types
  import opened CallTraces
  import opened TraceLaws
  import opened Machine
  import opened VmThreads
  import opened ProfileMerge
  import opened FocusedProfiles

  /** Records a run and views it. Only a return with nothing on the stack stops the recording; the view
      then holds exactly the ranges of the consumed calls. */
  method RecordAndView(actions: seq<Action>, saved: SavedCpuState, symbolOf: u64 -> nat)
    returns (possible: bool, data: Option<AllProfileData>, asserts: bool)
    requires CallsTakeTime(actions)
    ensures possible <==> Record(actions).Some?
    ensures possible ==>
      var tr := Record(actions).value.trace;
      var c := tr[..MergeLen(tr)];
      && (data.None? <==> Calls(tr) == [] || Rets(tr) == [])
      && (data.Some? ==>
        c != [] && data.value == AllProfileData(RangesUpTo(c, |c|, symbolOf), c[|c|-1].tick, MaxHeight(c)))
      && (data.Some? ==> (asserts <==> NoTies(tr)))
  {
    var thread := new VMThread(true, saved);
    data, asserts := None, true;
    possible := RecordAll(thread, actions);
    if possible {
      RecordKeeps(actions);
      data, asserts := TryCreate(thread.calls.callEvents, thread.calls.retEvents, symbolOf, thread.calls.trace);
    }
  }

  /** Looks at a recorded run through a focus: the ranges shown are exactly those of the consumed calls that meet
      it, clipped. At each depth they overlap in end points at most, and not even there when no call ties with an
      earlier return. */
  method RecordAndFocus(actions: seq<Action>, saved: SavedCpuState, symbolOf: u64 -> nat, focus: Range)
    returns (viewer: FocusedProfileData?)
    requires CallsTakeTime(actions) && Record(actions).Some? && Proper(focus)
    ensures var tr := Record(actions).value.trace;
      var c := tr[..MergeLen(tr)];
      && (viewer == null <==> Calls(tr) == [] || Rets(tr) == [])
      && (viewer != null ==>
        && viewer.Valid() && viewer.focus == focus && viewer.data.profileRanges == RangesUpTo(c, |c|, symbolOf)
        && viewer.gap == (if NoTies(c) then 1 else 0)
        && multiset(viewer.focusedProfileRanges) == multiset(Clipped(RangesUpTo(c, |c|, symbolOf), focus)))
  {
    ghost var tr := Record(actions).value.trace;
    ghost var c := tr[..MergeLen(tr)];
    var possible, data, asserts := RecordAndView(actions, saved, symbolOf);
    if data.None? { return null; }
    RecordKeeps(actions);
    PrefixWellFormed(tr, MergeLen(tr));
    ghost var gap := if NoTies(c) then 1 else 0;
    MergedKeeps(c, symbolOf, gap);
    viewer := Look(data.value, focus, gap);
  }

  /** A new viewer, which merges nothing yet, with its focus set. */
  method Look(data: AllProfileData, focus: Range, ghost gap: nat) returns (viewer: FocusedProfileData)
    requires Laid(data.profileRanges, gap) && Wide(data.profileRanges, gap) && Proper(focus)
    requires forall i | 0 <= i < |data.profileRanges| :: data.profileRanges[i].range.end <= data.maxTick + 1
    ensures viewer.Valid() && viewer.focus == focus && viewer.data == data && viewer.gap == gap
    ensures multiset(viewer.focusedProfileRanges) == multiset(Clipped(data.profileRanges, focus))
  {
    viewer := new FocusedProfileData(data, gap);
    viewer.SetFocusRange(focus);
  }

  method RecordAll(thread: VMThread, actions: seq<Action>) returns (possible: bool)
    requires thread.calls.Valid() && thread.calls.isProfiling && thread.Recorded() == Recorder(0, [], [])
    modifies thread.calls, thread.time
    ensures thread.calls.Valid()
    ensures possible <==> Record(actions).Some?
    ensures possible ==> Record(actions) == Some(thread.Recorded())
  {
    possible := true;
    var k := 0;
    while k < |actions| && possible
      invariant k <= |actions| && thread.calls.Valid() && thread.calls.isProfiling
      invariant possible ==> Record(actions[..k]) == Some(thread.Recorded())
      invariant !possible ==> Record(actions).None?
    {
      assert actions[..k+1][..k] == actions[..k];
      possible := thread.Do(actions[k]);
      k := k + 1;
      if !possible { ImpossibleStays(actions, k); }
    }
    assert possible ==> actions[..k] == actions;
  }

  lemma {:induction false} ImpossibleStays(actions: seq<Action>, k: nat)
    requires k <= |actions| && Record(actions[..k]).None?
    ensures Record(actions).None?
  {
    if k < |actions| {
      var before := actions[..|actions|-1];
      assert before[..k] == actions[..k];
      ImpossibleStays(before, k);
    } else {
      assert actions[..k] == actions;
    }
  }

  /** A call is shown exactly when something returns after it; its range then begins when it was made,
      lies at the depth the call stack had, and ends at its return, or one tick after everything shown
      when its return is not among what the merge consumed. */
  lemma CallIsShown(actions: seq<Action>, k: nat, symbolOf: u64 -> nat)
    requires k < |actions| && actions[k].Call? && Record(actions).Some? && CallsTakeTime(actions)
    ensures Record(actions[..k]).Some?
    ensures var before, tr := Record(actions[..k]).value, Record(actions).value.trace;
      var c, i := tr[..MergeLen(tr)], |before.trace|;
      && (i < |c| <==> exists r | i < r < |tr| :: tr[r].Returned?)
      && (i < |c| ==>
        && c[i] == Called(before.now, actions[k].to)
        && RangeOf(c, i, symbolOf) in RangesUpTo(c, |c|, symbolOf)
        && RangeOf(c, i, symbolOf).depth == |before.stack| && RangeOf(c, i, symbolOf).range.begin == before.now
        && RangeOf(c, i, symbolOf).symbolIndex == symbolOf(actions[k].to)
        && (forall j: nat | j < |c| && Matches(tr, i, j) :: RangeOf(c, i, symbolOf).range.end == tr[j].tick)
        && ((forall j: nat | j < |c| :: !Matches(tr, i, j)) ==>
              RangeOf(c, i, symbolOf).range.end == c[|c|-1].tick + 1))
  {
    CallDepthIsStackSize(actions, k);
    var before, tr := Record(actions[..k]).value, Record(actions).value.trace;
    var c, i := tr[..MergeLen(tr)], |before.trace|;
    ConsumedIff(tr, i);
    if i < |c| {
      assert c[..i] == tr[..i];
      RangeIsListed(c, |c|, i, symbolOf);
      EndInPrefix(tr, |c|, i);
      forall j: nat | j < |c| && Matches(tr, i, j) ensures EndOf(c, i) == tr[j].tick { EndAt(tr, i, j); }
    }
  }

  lemma MatchInPrefix(tr: seq<Event>, n: nat, i: nat, j: nat)
    requires n <= |tr| && j < n
    ensures Matches(tr[..n], i, j) <==> Matches(tr, i, j)
  {
    if i < j {
      assert forall k | 0 <= k <= n :: tr[..n][..k] == tr[..k];
      assert tr[..n][i] == tr[i];
      assert Height(tr[..n][..i]) == Height(tr[..i]) && Height(tr[..n][..j+1]) == Height(tr[..j+1]);
      assert forall k | i < k <= j :: Height(tr[..n][..k]) == Height(tr[..k]);
    }
  }

  lemma EndInPrefix(tr: seq<Event>, n: nat, i: nat)
    requires i < n <= |tr| && tr[i].Called?
    ensures EndOf(tr[..n], i) == if exists j: nat | j < n :: Matches(tr, i, j) then EndOf(tr, i) else tr[n-1].tick + 1
  {
    if j: nat :| j < n && Matches(tr, i, j) {
      MatchInPrefix(tr, n, i, j);
      EndAt(tr, i, j);
      EndAt(tr[..n], i, j);
    } else {
      forall j: nat | Matches(tr[..n], i, j) ensures false { MatchInPrefix(tr, n, i, j); }
    }
  }

  lemma Then(actions: seq<Action>, r: Recorder, a: Action, next: Recorder)
    requires Record(actions) == Some(r) && CallsTakeTime(actions) && (JustCalled(r) ==> RecordsNothing(r, a))
    requires a.Possible(r) && a.Apply(r) == next
    ensures Record(actions + [a]) == Some(next) && CallsTakeTime(actions + [a])
  {
    assert (actions + [a])[..|actions|] == actions;
  }

  /** How a tie comes about: a block that moves the stack pointer past a frame and ends with a call records
      a return and a call at one tick. The merge then asserts, and its ranges touch. */
  lemma UnwindThenCallTies(from: u64, to: u64, symbolOf: u64 -> nat) returns (actions: seq<Action>)
    ensures actions == [Call(1, from, to), Pass(1), Unwind(2), Call(2, from, to), Pass(1), Return]
    ensures CallsTakeTime(actions) && Record(actions).Some?
    ensures var tr := Record(actions).value.trace;
      var c := tr[..MergeLen(tr)];
      !NoTies(c) && !Laid(RangesUpTo(c, |c|, symbolOf), 1)
  {
    var tr;
    actions, tr := UnwoundAndCalled(from, to);
    RecordKeeps(actions);
    TieIsConsumed(tr, symbolOf);
  }

  lemma UnwoundAndCalled(from: u64, to: u64) returns (actions: seq<Action>, tr: seq<Event>)
    ensures actions == [Call(1, from, to), Pass(1), Unwind(2), Call(2, from, to), Pass(1), Return]
    ensures CallsTakeTime(actions) && Record(actions) == Some(Recorder(2, [], tr))
    ensures |tr| == 4 && tr[1].Returned? && tr[2].Called? && tr[3].Returned? && tr[1].tick == tr[2].tick
  {
    var a, b, c := Called(0, to), Returned(1), Called(1, to);
    tr := [a, b, c, Returned(2)];
    actions := Unwound(from, to);
    Then(actions, Recorder(1, [], [a, b]), Call(2, from, to), Recorder(1, [2], [a, b, c]));
    actions := actions + [Call(2, from, to)];
    Then(actions, Recorder(1, [2], [a, b, c]), Pass(1), Recorder(2, [2], [a, b, c]));
    actions := actions + [Pass(1)];
    Then(actions, Recorder(2, [2], [a, b, c]), Return, Recorder(2, [], tr));
    actions := actions + [Return];
  }

  lemma Unwound(from: u64, to: u64) returns (actions: seq<Action>)
    ensures actions == [Call(1, from, to), Pass(1), Unwind(2)] && CallsTakeTime(actions)
    ensures Record(actions) == Some(Recorder(1, [], [Called(0, to), Returned(1)]))
  {
    var a, b := Called(0, to), Returned(1);
    assert Record([]) == Some(Recorder(0, [], [])) && CallsTakeTime([]);
    assert [] + [a] == [a] && [] + [Call(1, from, to)] == [Call(1, from, to)];
    Then([], Recorder(0, [], []), Call(1, from, to), Recorder(0, [1], [a]));
    actions := [Call(1, from, to)];
    Then(actions, Recorder(0, [1], [a]), Pass(1), Recorder(1, [1], [a]));
    actions := actions + [Pass(1)];
    UnwindsOne(a, b);
    Then(actions, Recorder(1, [1], [a]), Unwind(2), Recorder(1, [], [a, b]));
    actions := actions + [Unwind(2)];
  }

  lemma UnwindsOne(a: Event, b: Event)
    requires a.Called? && a.tick == 0 && b == Returned(1)
    ensures Unwind(2).Apply(Recorder(1, [1], [a])) == Recorder(1, [], [a, b])
    ensures !JustCalled(Recorder(1, [1], [a]))
  {
    assert Kept([], 2) == 0;
    assert Kept([1], 2) == 0;
    assert Returns(0, 1) == [] && Returns(1, 1) == [b] && [a] + [b] == [a, b];
  }

  lemma TieIsConsumed(tr: seq<Event>, symbolOf: u64 -> nat)
    requires Balanced(tr) && Timely(tr) && |tr| == 4 && tr[1].Returned? && tr[2].Called? && tr[3].Returned?
    requires tr[1].tick == tr[2].tick
    ensures var c := tr[..MergeLen(tr)];
      !NoTies(c) && !Laid(RangesUpTo(c, |c|, symbolOf), 1)
  {
    ConsumedIff(tr, 2);
    var c := tr[..MergeLen(tr)];
    PrefixWellFormed(tr, MergeLen(tr));
    assert c[1] == tr[1] && c[2] == tr[2];
    MergedIsLaid(c, symbolOf);
  }
}
