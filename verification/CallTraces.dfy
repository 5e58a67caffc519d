/** Runs of calls and returns, and the nested ranges they stand for. This is the reference that both
    the recording side and the viewing side of the profiler are measured against. */
module CallTraces {
  import opened Types

  datatype CallEvent = CallEvent(tick: nat, address: u64)
  datatype RetEvent = RetEvent(tick: nat)

  datatype Event = Called(tick: nat, address: u64) | Returned(tick: nat)

  datatype Range = Range(begin: nat, end: nat)
  datatype ProfileRange = ProfileRange(range: Range, symbolIndex: nat, depth: nat)

  ghost function CallOf(e: Event): seq<CallEvent> {
    if e.Called? then [CallEvent(e.tick, e.address)] else []
  }

  ghost function RetOf(e: Event): seq<RetEvent> {
    if e.Returned? then [RetEvent(e.tick)] else []
  }

  /** The two streams a run is recorded in. */
  ghost function Calls(tr: seq<Event>): seq<CallEvent> {
    if tr == [] then [] else CallOf(tr[0]) + Calls(tr[1..])
  }

  ghost function Rets(tr: seq<Event>): seq<RetEvent> {
    if tr == [] then [] else RetOf(tr[0]) + Rets(tr[1..])
  }

  /** Calls minus returns. */
  ghost function Height(tr: seq<Event>): int {
    if tr == [] then 0 else Height(tr[..|tr|-1]) + (if tr[|tr|-1].Called? then 1 else -1)
  }

  /** No return without a call. */
  ghost predicate Balanced(tr: seq<Event>) {
    forall k | 0 <= k <= |tr| :: Height(tr[..k]) >= 0
  }

  /** Ticks never go back, and move on after every call. A return may share its tick with events after it. */
  ghost predicate Timely(tr: seq<Event>) {
    forall i, j {:trigger tr[i].tick, tr[j].tick} | 0 <= i < j < |tr| ::
      tr[i].tick <= tr[j].tick && (tr[i].Called? ==> tr[i].tick < tr[j].tick)
  }

  /** No call happens at the tick of an earlier return. */
  ghost predicate NoTies(tr: seq<Event>) {
    forall i, j | 0 <= i < j < |tr| && tr[i].Returned? && tr[j].Called? :: tr[i].tick != tr[j].tick
  }

  lemma {:induction false} CallsAppend(a: seq<Event>, b: seq<Event>)
    ensures Calls(a + b) == Calls(a) + Calls(b)
  {
    if a == [] {
      assert a + b == b;
    } else {
      CallsAppend(a[1..], b);
      assert (a + b)[1..] == a[1..] + b && (a + b)[0] == a[0];
      assert CallOf(a[0]) + (Calls(a[1..]) + Calls(b)) == (CallOf(a[0]) + Calls(a[1..])) + Calls(b);
    }
  }

  lemma {:induction false} RetsAppend(a: seq<Event>, b: seq<Event>)
    ensures Rets(a + b) == Rets(a) + Rets(b)
  {
    if a == [] {
      assert a + b == b;
    } else {
      RetsAppend(a[1..], b);
      assert (a + b)[1..] == a[1..] + b && (a + b)[0] == a[0];
      assert RetOf(a[0]) + (Rets(a[1..]) + Rets(b)) == (RetOf(a[0]) + Rets(a[1..])) + Rets(b);
    }
  }

  /** The call at `i` returns at `j`: the first time the height is back to where it was. */
  ghost predicate Matches(tr: seq<Event>, i: nat, j: nat) {
    && i < j < |tr| && tr[i].Called?
    && Height(tr[..j+1]) == Height(tr[..i])
    && forall k | i < k <= j :: Height(tr[..k]) > Height(tr[..i])
  }

  lemma MatchIsUnique(tr: seq<Event>, i: nat, j: nat, j': nat)
    requires Matches(tr, i, j) && Matches(tr, i, j')
    ensures j == j'
  {}

  /** When the call at `i` ends: with its return, or one tick after everything if it has none. */
  ghost function EndOf(tr: seq<Event>, i: nat): nat
    requires i < |tr|
  {
    if j: nat :| Matches(tr, i, j) then tr[j].tick else tr[|tr|-1].tick + 1
  }

  ghost function RangeOf(tr: seq<Event>, i: nat, symbolOf: u64 -> nat): ProfileRange
    requires i < |tr| && tr[i].Called?
  {
    ProfileRange(Range(tr[i].tick, EndOf(tr, i)), symbolOf(tr[i].address), Depth(tr, i))
  }

  /** How many calls are open when event `i` happens. */
  ghost function Depth(tr: seq<Event>, i: nat): nat
    requires i < |tr|
  {
    if Height(tr[..i]) >= 0 then Height(tr[..i]) else 0
  }

  /** The ranges of the calls among the first `n` events, in call order. */
  ghost function RangesUpTo(tr: seq<Event>, n: nat, symbolOf: u64 -> nat): seq<ProfileRange>
    requires n <= |tr|
  {
    if n == 0 then []
    else RangesUpTo(tr, n - 1, symbolOf) + (if tr[n-1].Called? then [RangeOf(tr, n - 1, symbolOf)] else [])
  }

  /** How many events a merge consumes that stops as soon as there are no calls or no returns left. */
  ghost function MergeLen(tr: seq<Event>): (n: nat)
    ensures n <= |tr|
  {
    if Calls(tr) == [] || Rets(tr) == [] then 0 else 1 + MergeLen(tr[1..])
  }

  lemma {:induction false} HasCall(tr: seq<Event>, i: nat)
    requires i < |tr|
    ensures tr[i].Called? ==> Calls(tr) != []
    ensures tr[i].Returned? ==> Rets(tr) != []
  {
    if i > 0 { HasCall(tr[1..], i - 1); }
  }

  lemma {:induction false} NoCall(tr: seq<Event>)
    ensures Calls(tr) == [] ==> forall i | 0 <= i < |tr| :: tr[i].Returned?
    ensures Rets(tr) == [] ==> forall i | 0 <= i < |tr| :: tr[i].Called?
  {
    if tr != [] {
      NoCall(tr[1..]);
      assert forall i | 1 <= i < |tr| :: tr[i] == tr[1..][i-1];
    }
  }

  /** A call is consumed exactly when some return comes after it: none below the last return is missed. */
  lemma {:induction false} ConsumedIff(tr: seq<Event>, i: nat)
    requires i < |tr| && tr[i].Called?
    ensures i < MergeLen(tr) <==> exists r | i < r < |tr| :: tr[r].Returned?
  {
    if i == 0 {
      HasCall(tr, 0);
      if Rets(tr) == [] { NoCall(tr); }
      if r :| 0 < r < |tr| && tr[r].Returned? { HasCall(tr, r); }
      if Rets(tr) != [] { SomeRet(tr); }
    } else {
      HasCall(tr, i);
      if Rets(tr) == [] {
        NoCall(tr);
      } else {
        ConsumedIff(tr[1..], i - 1);
        assert tr[1..][i-1] == tr[i];
        if r :| i < r < |tr| && tr[r].Returned? { assert tr[1..][r-1].Returned?; }
        if r :| i - 1 < r < |tr[1..]| && tr[1..][r].Returned? { assert tr[r+1].Returned?; }
      }
    }
  }

  lemma {:induction false} SomeRet(tr: seq<Event>)
    requires Rets(tr) != []
    ensures exists r | 0 <= r < |tr| :: tr[r].Returned?
  {
    if !tr[0].Returned? {
      SomeRet(tr[1..]);
      var r :| 0 <= r < |tr[1..]| && tr[1..][r].Returned?;
      assert tr[r+1].Returned?;
    }
  }
}
