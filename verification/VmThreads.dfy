/** An emulated thread (emulator/include/emulator/vmthread.h): its clock, its saved processor state, its
    shadow call stack, and the two streams of profiling events it records. */
module VmThreads {
  import opened Types
  import opened CallTraces
  import CodeSegments
  import opened Machine

  /** What a clock holds. Instruction counts and nanoseconds are the same unit. */
  datatype Clock = Clock(waitTime: nat, nbInstructions: nat, instructionLimit: nat) {
    function Ns(): nat { waitTime + nbInstructions }

    predicate Stopped() { nbInstructions >= instructionLimit }

    /** How many instructions the slice may still run. */
    function Left(): nat { if Stopped() then 0 else instructionLimit - nbInstructions }

    function Ticked(count: nat): Clock { this.(nbInstructions := nbInstructions + count) }

    /** Nothing is left of the slice. */
    function Yielded(): (c: Clock)
      ensures c.Stopped() && c.Ns() == Ns()
    {
      this.(instructionLimit := nbInstructions)
    }
  }

  class ThreadTime {
    var waitTime: nat
    var nbInstructions: nat
    var instructionLimit: nat

    constructor ()
      ensures ToClock() == Clock(0, 0, 0)
    {
      waitTime, nbInstructions, instructionLimit := 0, 0, 0;
    }

    ghost function ToClock(): Clock
      reads this
    {
      Clock(waitTime, nbInstructions, instructionLimit)
    }

    predicate IsStopAsked()
      reads this
      ensures IsStopAsked() <==> ToClock().Stopped()
    {
      nbInstructions >= instructionLimit
    }

    function Ns(): (t: nat)
      reads this
      ensures t == ToClock().Ns()
    {
      waitTime + nbInstructions
    }

    method Tick(count: nat)
      modifies this
      ensures ToClock() == old(ToClock()).Ticked(count)
      ensures nbInstructions == old(nbInstructions) + count
      ensures waitTime == old(waitTime) && instructionLimit == old(instructionLimit)
    {
      nbInstructions := nbInstructions + count;
    }

    /** Starts a slice at time `current`; fails when the thread's own time is already past it. */
    method SetSlice(current: nat, sliceDuration: nat) returns (ok: bool)
      modifies this
      ensures Step.NewSlice(current, sliceDuration).Apply(old(ToClock())) == if ok then Some(ToClock()) else None
      ensures ok <==> current >= old(waitTime + nbInstructions)
      ensures ok ==> waitTime + nbInstructions == current && nbInstructions == old(nbInstructions)
                     && instructionLimit == nbInstructions + sliceDuration
      ensures !ok ==> unchanged(this)
    {
      if !(current >= waitTime + nbInstructions) { return false; }
      waitTime := current - nbInstructions;
      instructionLimit := nbInstructions + sliceDuration;
      ok := true;
    }

    method Yield()
      modifies this
      ensures ToClock() == old(ToClock()).Yielded()
      ensures instructionLimit == nbInstructions == old(nbInstructions) && waitTime == old(waitTime)
    {
      instructionLimit := nbInstructions;
    }
  }

  /** What happens to a clock. */
  datatype Step = Ran(count: nat) | NewSlice(current: nat, duration: nat) | Yielded {
    ghost function Apply(c: Clock): Option<Clock> {
      match this
      case Ran(count) => Some(c.Ticked(count))
      case NewSlice(current, duration) =>
        if current < c.Ns() then None
        else Some(Clock(current - c.nbInstructions, c.nbInstructions, c.nbInstructions + duration))
      case Yielded => Some(c.Yielded())
    }
  }

  ghost function RunClock(c: Clock, steps: seq<Step>): Option<Clock> {
    if steps == [] then Some(c)
    else match RunClock(c, steps[..|steps|-1])
      case None => None
      case Some(d) => steps[|steps|-1].Apply(d)
  }

  /** Thread time never goes back, over any sequence of steps; it moves on by what is run, a slice begins exactly
      at the time asked for with as much left as asked for, unless that time is past, and a yield stops it at once. */
  lemma {:induction false} TimeIsMonotone(c: Clock, steps: seq<Step>)
    ensures RunClock(c, steps).Some? ==> RunClock(c, steps).value.Ns() >= c.Ns()
    ensures steps != [] && RunClock(c, steps[..|steps|-1]).Some? ==>
      var before, after := RunClock(c, steps[..|steps|-1]).value, RunClock(c, steps);
      match steps[|steps|-1]
      case NewSlice(current, duration) =>
        if current < before.Ns() then after.None?
        else after.Some? && after.value.Ns() == current && after.value.Left() == duration
      case Yielded => after.Some? && after.value.Ns() == before.Ns() && after.value.Left() == 0
      case Ran(count) =>
        after.Some? && after.value.Ns() == before.Ns() + count
        && after.value.Left() == if before.Left() <= count then 0 else before.Left() - count
  {
    if steps != [] { TimeIsMonotone(c, steps[..|steps|-1]); }
  }

  /** What a thread has recorded of its calls: the stack pointers of the open ones and, with profiling on,
      the calls and returns so far. */
  datatype Recording = Recording(profiling: bool, stack: seq<u64>, trace: seq<Event>) {
    ghost function At(now: nat): Recorder { Recorder(now, stack, trace) }

    ghost function After(now: nat, a: Action): Recording
      requires a.Possible(At(now))
    {
      var r := a.Apply(At(now));
      Recording(profiling, r.stack, if profiling then r.trace else trace)
    }

    /** After all `actions`, done at time `now`; a return with nothing on the stack is not possible. */
    ghost function Played(now: nat, actions: seq<Action>): Option<Recording> {
      if actions == [] then Some(this)
      else match Played(now, actions[..|actions|-1])
        case None => None
        case Some(c) =>
          if actions[|actions|-1].Possible(c.At(now)) then Some(c.After(now, actions[|actions|-1])) else None
    }
  }

  /** The compiler's call stack: the code that returns lead to, where it is known. */
  type JitStack = seq<Option<CodeSegments.JitBlock>>

  /** It after one action, interpreted; a return with nothing on it is not possible. */
  function Notified(stack: JitStack, a: Action): Option<JitStack> {
    match a
    case Call(_, _, _) => Some(stack + [None])
    case Return => if stack == [] then None else Some(stack[..|stack|-1])
    case Unwind(_) => Some(seq(|stack|, _ => None))
    case Pass(_) => Some(stack)
  }

  ghost function NotifiedAll(stack: JitStack, actions: seq<Action>): Option<JitStack> {
    if actions == [] then Some(stack)
    else match NotifiedAll(stack, actions[..|actions|-1])
      case None => None
      case Some(s) => Notified(s, actions[|actions|-1])
  }

  lemma {:induction false} NotNotified(stack: JitStack, actions: seq<Action>, k: nat)
    requires k <= |actions| && NotifiedAll(stack, actions[..k]).None?
    ensures NotifiedAll(stack, actions).None?
  {
    if k < |actions| {
      var before := actions[..|actions|-1];
      assert before[..k] == actions[..k];
      NotNotified(stack, before, k);
    } else {
      assert actions[..k] == actions;
    }
  }

  /** How much higher than before the call stack is after `actions`. */
  ghost function Net(actions: seq<Action>): int {
    if actions == [] then 0
    else Net(actions[..|actions|-1]) + match actions[|actions|-1]
                                       case Call(_, _, _) => 1
                                       case Return => -1
                                       case _ => 0
  }

  ghost predicate Unwinds(actions: seq<Action>) {
    exists k | 0 <= k < |actions| :: actions[k].Unwind?
  }

  /** The call stack always stayed higher than `i`. */
  ghost predicate StaysAbove(stack: JitStack, actions: seq<Action>, i: nat) {
    forall k | 0 <= k <= |actions| :: i < |stack| + Net(actions[..k])
  }

  ghost predicate Underruns(stack: JitStack, actions: seq<Action>) {
    exists k | 0 <= k <= |actions| :: |stack| + Net(actions[..k]) < 0
  }

  lemma PrefixOfLonger(actions: seq<Action>, k: nat)
    requires actions != [] && k < |actions|
    ensures actions[..|actions|-1][..k] == actions[..k]
  {}

  lemma NetMore(stack: JitStack, actions: seq<Action>)
    requires actions != []
    ensures var before := actions[..|actions|-1];
      && (Underruns(stack, actions) <==> Underruns(stack, before) || |stack| + Net(actions) < 0)
      && (forall i: nat ::
            StaysAbove(stack, actions, i) <==> StaysAbove(stack, before, i) && i < |stack| + Net(actions))
      && (Unwinds(actions) <==> Unwinds(before) || actions[|actions|-1].Unwind?)
  {
    var before := actions[..|actions|-1];
    assert actions[..|actions|] == actions;
    forall k | 0 <= k < |actions| ensures before[..k] == actions[..k] { PrefixOfLonger(actions, k); }
  }

  /** What the compiler's call stack is after any `actions`: there is none if at some point more returned than was
      on it and was called. Entries it had before stay while the stack is above them and nothing unwinds it;
      wherever that is not so, what returns lead to is not known. */
  lemma {:induction false} NotifiedIs(stack: JitStack, actions: seq<Action>)
    ensures NotifiedAll(stack, actions).None? <==> Underruns(stack, actions)
    ensures NotifiedAll(stack, actions).Some? ==>
      var r := NotifiedAll(stack, actions).value;
      && |r| == |stack| + Net(actions)
      && forall i | 0 <= i < |r| ::
           if StaysAbove(stack, actions, i) && !Unwinds(actions) then i < |stack| && r[i] == stack[i] else r[i] == None
  {
    if actions == [] {
      assert actions[..0] == [];
    } else {
      NotifiedIs(stack, actions[..|actions|-1]);
      NetMore(stack, actions);
    }
  }

  /** Tells the compiler of all `actions`. */
  method NotifyAll(stack: JitStack, actions: seq<Action>) returns (r: Option<JitStack>)
    ensures r == NotifiedAll(stack, actions)
    ensures r.None? <==> Underruns(stack, actions)
    ensures r.Some? ==>
      && |r.value| == |stack| + Net(actions)
      && forall i | 0 <= i < |r.value| ::
           if StaysAbove(stack, actions, i) && !Unwinds(actions) then i < |stack| && r.value[i] == stack[i]
           else r.value[i] == None
  {
    r := Some(stack);
    var k := 0;
    while k < |actions| && r.Some?
      invariant k <= |actions| && r == NotifiedAll(stack, actions[..k])
    {
      assert actions[..k+1][..k] == actions[..k];
      r := Notified(r.value, actions[k]);
      k := k + 1;
    }
    if r.Some? { assert actions[..k] == actions; } else { NotNotified(stack, actions, k); }
    NotifiedIs(stack, actions);
  }

  /** The parts of a thread that record its calls: two event streams and three stacks. */
  class ThreadCalls {
    const isProfiling: bool
    var callEvents: seq<CallEvent>
    var retEvents: seq<RetEvent>

    var stack: seq<u64>
    var callpoint: seq<u64>
    var callstack: seq<u64>

    /** The calls and returns recorded, in the order they happened. */
    ghost var trace: seq<Event>

    constructor (profiling: bool)
      ensures Valid() && isProfiling == profiling && ToRecording() == Recording(profiling, [], [])
    {
      isProfiling := profiling;
      callEvents, retEvents := [], [];
      stack, callpoint, callstack := [], [], [];
      trace := [];
    }

    /** The three stacks move together; with profiling on from the start the two streams are the calls
        and the returns of the run so far, whose height is that of the stacks. */
    ghost predicate Valid()
      reads this
    {
      && |callpoint| == |stack| && |callstack| == |stack|
      && callEvents == Calls(trace) && retEvents == Rets(trace)
      && (isProfiling ==> Height(trace) == |stack| && Balanced(trace))
    }

    ghost function ToRecording(): Recording
      reads this
    {
      Recording(isProfiling, stack, trace)
    }

    method Push(now: nat, stackptr: u64, from: u64, to: u64)
      requires Valid()
      modifies this
      ensures Valid() && callpoint == old(callpoint) + [from] && callstack == old(callstack) + [to]
      ensures ToRecording() == old(ToRecording()).After(now, Call(stackptr, from, to))
      ensures stack == old(stack) + [stackptr] && retEvents == old(retEvents)
      ensures callEvents == if isProfiling then old(callEvents) + [CallEvent(now, to)] else old(callEvents)
    {
      if isProfiling {
        callEvents := callEvents + [CallEvent(now, to)];
        Append(trace, Called(now, to));
        trace := trace + [Called(now, to)];
      }
      stack := stack + [stackptr];
      callpoint := callpoint + [from];
      callstack := callstack + [to];
    }

    method Pop(now: nat) returns (address: u64)
      requires Valid() && stack != []
      modifies this
      ensures Valid() && address == old(callstack)[|old(callstack)|-1]
      ensures |stack| <= |old(callpoint)| && callpoint == old(callpoint)[..|stack|]
      ensures callstack == old(callstack)[..|stack|]
      ensures ToRecording() == old(ToRecording()).After(now, Return)
      ensures stack == old(stack)[..|old(stack)|-1] && callEvents == old(callEvents)
      ensures retEvents == if isProfiling then old(retEvents) + [RetEvent(now)] else old(retEvents)
    {
      RecordReturn(now);
      address := callstack[|callstack|-1];
      stack := stack[..|stack|-1];
      callstack := callstack[..|callstack|-1];
      callpoint := callpoint[..|callpoint|-1];
    }

    method RecordReturn(now: nat)
      requires callEvents == Calls(trace) && retEvents == Rets(trace)
      modifies this`retEvents, this`trace
      ensures trace == if isProfiling then old(trace) + [Returned(now)] else old(trace)
      ensures retEvents == if isProfiling then old(retEvents) + [RetEvent(now)] else old(retEvents)
      ensures callEvents == Calls(trace) && retEvents == Rets(trace)
      ensures isProfiling && old(Balanced(trace)) && old(Height(trace)) > 0 ==> Balanced(trace)
      ensures isProfiling ==> Height(trace) == old(Height(trace)) - 1
    {
      if isProfiling {
        Append(trace, Returned(now));
        retEvents := retEvents + [RetEvent(now)];
        trace := trace + [Returned(now)];
      }
    }

    /** Pops every frame below `stackptr` off the top and records a return for each. */
    method PopUntil(now: nat, stackptr: u64)
      requires Valid()
      modifies this
      ensures Valid()
      ensures |stack| <= |old(callpoint)| && callpoint == old(callpoint)[..|stack|]
      ensures callstack == old(callstack)[..|stack|]
      ensures ToRecording() == old(ToRecording()).After(now, Unwind(stackptr))
      ensures stack <= old(stack) && (stack != [] ==> stack[|stack|-1] >= stackptr)
      ensures forall i | |stack| <= i < |old(stack)| :: old(stack)[i] < stackptr
      ensures callEvents == old(callEvents) && old(retEvents) <= retEvents
      ensures |retEvents| == |old(retEvents)| + if isProfiling then |old(stack)| - |stack| else 0
      ensures forall i | |old(retEvents)| <= i < |retEvents| :: retEvents[i] == RetEvent(now)
    {
      var iterations := PopFrames(stackptr);
      RecordReturns(now, iterations);
      RetsOfReturns(old(trace), iterations, now);
    }

    method RecordReturns(now: nat, iterations: nat)
      requires callEvents == Calls(trace) && retEvents == Rets(trace)
      modifies this`retEvents, this`trace
      ensures trace == if isProfiling then old(trace) + Returns(iterations, now) else old(trace)
      ensures callEvents == Calls(trace) && retEvents == Rets(trace)
      ensures isProfiling && old(Balanced(trace)) && old(Height(trace)) >= iterations ==> Balanced(trace)
      ensures isProfiling ==> Height(trace) == old(Height(trace)) - iterations
    {
      ghost var before := trace;
      var i := 0;
      while i < iterations
        invariant i <= iterations
        invariant callEvents == Calls(trace) && retEvents == Rets(trace)
        invariant trace == if isProfiling then before + Returns(i, now) else before
        invariant isProfiling && Balanced(before) && Height(before) >= iterations ==> Balanced(trace)
        invariant isProfiling ==> Height(trace) == Height(before) - i
      {
        RecordReturn(now);
        assert before + Returns(i, now) + [Returned(now)] == before + Returns(i + 1, now);
        i := i + 1;
      }
    }

    /** The three stacks' part of it: how many frames went. */
    method PopFrames(stackptr: u64) returns (iterations: nat)
      requires |callpoint| == |stack| && |callstack| == |stack|
      modifies this`stack, this`callpoint, this`callstack
      ensures stack == old(stack)[..Kept(old(stack), stackptr)]
      ensures callpoint == old(callpoint)[..|stack|] && callstack == old(callstack)[..|stack|]
      ensures iterations == |old(stack)| - |stack|
    {
      iterations := 0;
      while stack != []
        invariant |stack| + iterations == |old(stack)| && stack == old(stack)[..|stack|]
        invariant callpoint == old(callpoint)[..|stack|] && callstack == old(callstack)[..|stack|]
        invariant Kept(old(stack), stackptr) == Kept(stack, stackptr)
        decreases |stack|
      {
        if stack[|stack|-1] >= stackptr { break; }
        stack := stack[..|stack|-1];
        callstack := callstack[..|callstack|-1];
        callpoint := callpoint[..|callpoint|-1];
        iterations := iterations + 1;
      }
    }

    /** Does one action at time `now`; not possible only for a return with nothing on the stack. */
    method Do(now: nat, a: Action) returns (possible: bool)
      requires Valid()
      modifies this
      ensures Valid() && possible == a.Possible(old(ToRecording()).At(now))
      ensures ToRecording() == if possible then old(ToRecording()).After(now, a) else old(ToRecording())
      ensures possible <==> !(a.Return? && old(stack) == [])
      ensures possible ==>
        match a
        case Call(stackptr, _, _) => stack == old(stack) + [stackptr]
        case Return => stack == old(stack)[..|old(stack)|-1]
        case Unwind(stackptr) =>
          && stack <= old(stack) && (stack != [] ==> stack[|stack|-1] >= stackptr)
          && forall i | |stack| <= i < |old(stack)| :: old(stack)[i] < stackptr
        case Pass(_) => stack == old(stack)
    {
      possible := true;
      match a
      case Call(stackptr, from, to) => Push(now, stackptr, from, to);
      case Return =>
        if stack == [] { return false; }
        var _ := Pop(now);
      case Unwind(stackptr) => PopUntil(now, stackptr);
      case Pass(_) =>
    }

    /** Whether all `actions` are possible. */
    method CanPlay(ghost now: nat, actions: seq<Action>) returns (possible: bool)
      ensures possible <==> ToRecording().Played(now, actions).Some?
    {
      possible := true;
      var s := stack;
      var k := 0;
      while k < |actions| && possible
        invariant k <= |actions|
        invariant possible == ToRecording().Played(now, actions[..k]).Some?
        invariant possible ==> s == ToRecording().Played(now, actions[..k]).value.stack
      {
        assert actions[..k+1][..k] == actions[..k];
        match actions[k] {
          case Call(stackptr, _, _) => s := s + [stackptr];
          case Return => if s == [] { possible := false; } else { s := s[..|s|-1]; }
          case Unwind(stackptr) => s := s[..Kept(s, stackptr)];
          case Pass(_) =>
        }
        k := k + 1;
      }
      if possible { assert actions[..k] == actions; } else { NotPlayed(ToRecording(), now, actions, k); }
    }

    /** Does all `actions` at time `now`. */
    method Play(now: nat, actions: seq<Action>)
      requires Valid() && ToRecording().Played(now, actions).Some?
      modifies this
      ensures Valid() && Some(ToRecording()) == old(ToRecording()).Played(now, actions)
    {
      ghost var before := ToRecording();
      for k := 0 to |actions|
        invariant Valid() && before.Played(now, actions[..k]) == Some(ToRecording())
      {
        assert actions[..k+1][..k] == actions[..k];
        if before.Played(now, actions[..k+1]).None? { NotPlayed(before, now, actions, k + 1); }
        var _ := Do(now, actions[k]);
      }
      assert actions[..|actions|] == actions;
    }
  }

  lemma {:induction false} NotPlayed(c: Recording, now: nat, actions: seq<Action>, k: nat)
    requires k <= |actions| && c.Played(now, actions[..k]).None?
    ensures c.Played(now, actions).None?
  {
    if k < |actions| {
      var before := actions[..|actions|-1];
      assert before[..k] == actions[..k];
      NotPlayed(c, now, before, k);
    } else {
      assert actions[..k] == actions;
    }
  }

  class VMThread {
    const time: ThreadTime
    const calls: ThreadCalls
    var savedCpuState: SavedCpuState
    var savedJitStack: JitStack
    var requestsSyscall: bool
    var requestsAtomic: bool

    constructor (profiling: bool, saved: SavedCpuState)
      ensures fresh(time) && fresh(calls) && time.ToClock() == Clock(0, 0, 0)
      ensures calls.Valid() && calls.ToRecording() == Recording(profiling, [], [])
      ensures savedCpuState == saved && savedJitStack == [] && !requestsSyscall && !requestsAtomic
    {
      time := new ThreadTime();
      calls := new ThreadCalls(profiling);
      savedCpuState, savedJitStack := saved, [];
      requestsSyscall, requestsAtomic := false, false;
    }

    ghost function Recorded(): Recorder
      reads calls, time
    {
      calls.ToRecording().At(time.Ns())
    }

    method EnterSyscall()
      modifies this`requestsSyscall, time
      ensures requestsSyscall && time.ToClock() == old(time.ToClock()).Yielded()
      ensures time.IsStopAsked() && time.Ns() == old(time.Ns()) && time.nbInstructions == old(time.nbInstructions)
    {
      time.Yield();
      requestsSyscall := true;
    }

    method EnterAtomic()
      modifies this`requestsAtomic, time
      ensures requestsAtomic && time.ToClock() == old(time.ToClock()).Yielded()
      ensures time.IsStopAsked() && time.Ns() == old(time.Ns()) && time.nbInstructions == old(time.nbInstructions)
    {
      time.Yield();
      requestsAtomic := true;
    }

    method ResetAtomicRequest()
      modifies this`requestsAtomic
      ensures !requestsAtomic
    {
      requestsAtomic := false;
    }

    method PushCallstack(stackptr: u64, from: u64, to: u64)
      requires calls.Valid()
      modifies calls
      ensures calls.Valid() && calls.callpoint == old(calls.callpoint) + [from]
      ensures calls.callstack == old(calls.callstack) + [to]
      ensures calls.ToRecording() == old(calls.ToRecording()).After(time.Ns(), Call(stackptr, from, to))
      ensures calls.stack == old(calls.stack) + [stackptr] && calls.retEvents == old(calls.retEvents)
      ensures calls.callEvents ==
        if calls.isProfiling then old(calls.callEvents) + [CallEvent(time.Ns(), to)] else old(calls.callEvents)
    {
      calls.Push(time.Ns(), stackptr, from, to);
    }

    method PopCallstack() returns (address: u64)
      requires calls.Valid() && calls.stack != []
      modifies calls
      ensures calls.Valid() && address == old(calls.callstack)[|old(calls.callstack)|-1]
      ensures calls.ToRecording() == old(calls.ToRecording()).After(time.Ns(), Return)
      ensures calls.stack == old(calls.stack)[..|old(calls.stack)|-1] && calls.callEvents == old(calls.callEvents)
      ensures calls.retEvents ==
        if calls.isProfiling then old(calls.retEvents) + [RetEvent(time.Ns())] else old(calls.retEvents)
    {
      address := calls.Pop(time.Ns());
    }

    method PopCallstackUntil(stackptr: u64)
      requires calls.Valid()
      modifies calls
      ensures calls.Valid()
      ensures calls.ToRecording() == old(calls.ToRecording()).After(time.Ns(), Unwind(stackptr))
      ensures calls.stack <= old(calls.stack) && (calls.stack != [] ==> calls.stack[|calls.stack|-1] >= stackptr)
      ensures forall i | |calls.stack| <= i < |old(calls.stack)| :: old(calls.stack)[i] < stackptr
      ensures calls.callEvents == old(calls.callEvents) && old(calls.retEvents) <= calls.retEvents
      ensures |calls.retEvents| ==
        |old(calls.retEvents)| + if calls.isProfiling then |old(calls.stack)| - |calls.stack| else 0
      ensures forall i | |old(calls.retEvents)| <= i < |calls.retEvents| :: calls.retEvents[i] == RetEvent(time.Ns())
    {
      calls.PopUntil(time.Ns(), stackptr);
    }

    /** Does what `a` says; not possible only for a return with nothing on the stack. */
    method Do(a: Action) returns (possible: bool)
      requires calls.Valid() && calls.isProfiling
      modifies calls, time
      ensures calls.Valid()
      ensures possible <==> a.Possible(old(Recorded()))
      ensures Recorded() == if possible then a.Apply(old(Recorded())) else old(Recorded())
    {
      possible := true;
      match a
      case Call(stackptr, from, to) => PushCallstack(stackptr, from, to);
      case Return =>
        if calls.stack == [] { return false; }
        var _ := PopCallstack();
      case Unwind(stackptr) => PopCallstackUntil(stackptr);
      case Pass(ns) => time.Tick(ns);
    }
  }

  /** A call, a return, the stack pointer moving up to `stackptr`, or time passing. */
  datatype Action = Call(stackptr: u64, from: u64, to: u64) | Return | Unwind(stackptr: u64) | Pass(ns: nat) {
    ghost predicate Possible(r: Recorder) {
      Return? ==> r.stack != []
    }

    ghost function Apply(r: Recorder): Recorder
      requires Possible(r)
    {
      match this
      case Call(stackptr, _, to) => Recorder(r.now, r.stack + [stackptr], r.trace + [Called(r.now, to)])
      case Return => Recorder(r.now, r.stack[..|r.stack|-1], r.trace + [Returned(r.now)])
      case Unwind(stackptr) =>
        var kept := Kept(r.stack, stackptr);
        Recorder(r.now, r.stack[..kept], r.trace + Returns(|r.stack| - kept, r.now))
      case Pass(ns) => r.(now := r.now + ns)
    }
  }

  /** The time, the recorded stack pointers and the run so far. */
  datatype Recorder = Recorder(now: nat, stack: seq<u64>, trace: seq<Event>)

  /** How many frames stay: all up to the last one whose stack pointer is at least `stackptr`. */
  function Kept(stack: seq<u64>, stackptr: u64): (n: nat)
    ensures n <= |stack|
    ensures n > 0 ==> stack[n-1] >= stackptr
    ensures forall i | n <= i < |stack| :: stack[i] < stackptr
  {
    if stack == [] || stack[|stack|-1] >= stackptr then |stack| else Kept(stack[..|stack|-1], stackptr)
  }

  ghost function Returns(n: nat, now: nat): (tr: seq<Event>)
    ensures |tr| == n && forall i | 0 <= i < n :: tr[i] == Returned(now)
  {
    if n == 0 then [] else Returns(n - 1, now) + [Returned(now)]
  }

  lemma Append(tr: seq<Event>, e: Event)
    ensures Calls(tr + [e]) == Calls(tr) + CallOf(e) && Rets(tr + [e]) == Rets(tr) + RetOf(e)
    ensures Height(tr + [e]) == Height(tr) + (if e.Called? then 1 else -1)
    ensures Balanced(tr) && Height(tr + [e]) >= 0 ==> Balanced(tr + [e])
  {
    CallsAppend(tr, [e]);
    RetsAppend(tr, [e]);
    assert [e][1..] == [];
    assert (tr + [e])[..|tr|] == tr;
    if Balanced(tr) && Height(tr + [e]) >= 0 {
      forall k | 0 <= k <= |tr + [e]| ensures Height((tr + [e])[..k]) >= 0 {
        assert (tr + [e])[..k] == if k <= |tr| then tr[..k] else tr + [e];
      }
    }
  }

  lemma {:induction false} RetsOfReturns(tr: seq<Event>, n: nat, now: nat)
    ensures var rets := Rets(tr + Returns(n, now));
      && Rets(tr) <= rets && |rets| == |Rets(tr)| + n
      && forall i | |Rets(tr)| <= i < |rets| :: rets[i] == RetEvent(now)
  {
    if n == 0 {
      assert tr + Returns(0, now) == tr;
    } else {
      RetsOfReturns(tr, n - 1, now);
      Append(tr + Returns(n - 1, now), Returned(now));
      assert tr + Returns(n, now) == tr + Returns(n - 1, now) + [Returned(now)];
    }
  }

  ghost function Record(actions: seq<Action>): Option<Recorder> {
    if actions == [] then Some(Recorder(0, [], []))
    else match Record(actions[..|actions|-1])
      case None => None
      case Some(r) => if actions[|actions|-1].Possible(r) then Some(actions[|actions|-1].Apply(r)) else None
  }

  /** The same from any recorder on. */
  ghost function Replay(r: Recorder, actions: seq<Action>): Option<Recorder> {
    if actions == [] then Some(r)
    else match Replay(r, actions[..|actions|-1])
      case None => None
      case Some(q) => if actions[|actions|-1].Possible(q) then Some(actions[|actions|-1].Apply(q)) else None
  }

  lemma {:induction false} RecordIsReplay(actions: seq<Action>)
    ensures Record(actions) == Replay(Recorder(0, [], []), actions)
  {
    if actions != [] { RecordIsReplay(actions[..|actions|-1]); }
  }

  lemma {:induction false} ReplayOn(r: Recorder, a: seq<Action>, b: seq<Action>)
    requires Replay(r, a).Some?
    ensures Replay(r, a + b) == Replay(Replay(r, a).value, b)
  {
    if b == [] {
      assert a + b == a;
    } else {
      ReplayOn(r, a, b[..|b|-1]);
      assert (a + b)[..|a + b|-1] == a + b[..|b|-1];
    }
  }

  /** Action `a` takes recorder `p` to `q`: a call is opened, a return closes the call opened last, frames below an
      unwound stack pointer go with a return for each, or time passes. */
  ghost predicate Does(a: Action, p: Recorder, q: Recorder) {
    match a
    case Call(stackptr, _, to) =>
      q.now == p.now && q.stack == p.stack + [stackptr] && q.trace == p.trace + [Called(p.now, to)]
    case Return =>
      && q.now == p.now && p.stack != [] && q.stack == p.stack[..|p.stack|-1]
      && q.trace == p.trace + [Returned(p.now)]
    case Unwind(stackptr) =>
      && q.now == p.now && q.stack <= p.stack && (q.stack != [] ==> q.stack[|q.stack|-1] >= stackptr)
      && (forall i | |q.stack| <= i < |p.stack| :: p.stack[i] < stackptr)
      && p.trace <= q.trace && |q.trace| - |p.trace| == |p.stack| - |q.stack|
      && (forall i | |p.trace| <= i < |q.trace| :: q.trace[i] == Returned(p.now))
    case Pass(ns) => q == p.(now := p.now + ns)
  }

  lemma ActionDoes(a: Action, p: Recorder)
    requires a.Possible(p)
    ensures Does(a, p, a.Apply(p))
  {}

  /** What a recorder makes of the k-th action. */
  lemma {:induction false} ReplaySteps(r: Recorder, actions: seq<Action>, k: nat)
    requires k < |actions| && Replay(r, actions).Some?
    ensures Replay(r, actions[..k]).Some? && Replay(r, actions[..k+1]).Some?
    ensures Does(actions[k], Replay(r, actions[..k]).value, Replay(r, actions[..k+1]).value)
    decreases |actions|
  {
    var n := |actions| - 1;
    if k < n {
      ReplaySteps(r, actions[..n], k);
      assert actions[..n][..k] == actions[..k] && actions[..n][..k+1] == actions[..k+1];
    } else {
      assert actions[..k+1] == actions;
      ActionDoes(actions[k], Replay(r, actions[..k]).value);
    }
  }

  /** Actions cannot be replayed exactly when one of them returns with nothing on the stack. */
  lemma {:induction false} ReplayFailsIff(r: Recorder, actions: seq<Action>)
    ensures Replay(r, actions).None? <==>
      exists k | 0 <= k < |actions| ::
        Replay(r, actions[..k]).Some? && Replay(r, actions[..k]).value.stack == [] && actions[k].Return?
  {
    if actions != [] {
      var n := |actions| - 1;
      ReplayFailsIff(r, actions[..n]);
      forall k | 0 <= k < n ensures actions[..n][..k] == actions[..k] {}
      if Replay(r, actions[..n]).None? {
        var k :| 0 <= k < n && Replay(r, actions[..n][..k]).Some? && Replay(r, actions[..n][..k]).value.stack == []
          && actions[..n][k].Return?;
        assert actions[k].Return?;
      } else {
        forall k | 0 <= k < n && Replay(r, actions[..k]).Some? && Replay(r, actions[..k]).value.stack == []
          ensures !actions[k].Return?
        {
          assert actions[..n][k] == actions[k];
        }
      }
    }
  }

  /** Playing actions at one time is replaying them; without profiling only the stack follows. */
  lemma {:induction false} PlayedIsReplay(c: Recording, now: nat, actions: seq<Action>)
    requires forall i | 0 <= i < |actions| :: !actions[i].Pass?
    ensures c.Played(now, actions).None? <==> Replay(c.At(now), actions).None?
    ensures c.Played(now, actions).Some? ==>
      var p, q := c.Played(now, actions).value, Replay(c.At(now), actions).value;
      && q.now == now && p.stack == q.stack && p.profiling == c.profiling
      && p.trace == if c.profiling then q.trace else c.trace
  {
    if actions != [] { PlayedIsReplay(c, now, actions[..|actions|-1]); }
  }

  /** The last thing recorded is a call, at the present time. */
  ghost predicate JustCalled(r: Recorder) {
    r.trace != [] && r.trace[|r.trace|-1].Called? && r.trace[|r.trace|-1].tick == r.now
  }

  ghost predicate RecordsNothing(r: Recorder, a: Action) {
    a.Pass? || (a.Unwind? && Kept(r.stack, a.stackptr) == |r.stack|)
  }

  /** Time moves on between every call and whatever is recorded next. */
  ghost predicate CallsTakeTime(actions: seq<Action>) {
    actions != [] ==>
      var before := actions[..|actions|-1];
      && CallsTakeTime(before)
      && match Record(before)
         case None => true
         case Some(r) => JustCalled(r) ==> RecordsNothing(r, actions[|actions|-1])
  }

  ghost predicate UpToNow(r: Recorder) {
    && Balanced(r.trace) && Height(r.trace) == |r.stack|
    && forall i | 0 <= i < |r.trace| :: r.trace[i].tick <= r.now
  }

  lemma {:induction false} ReturnsAppend(tr: seq<Event>, n: nat, now: nat)
    requires Balanced(tr) && Height(tr) >= n
    ensures Balanced(tr + Returns(n, now)) && Height(tr + Returns(n, now)) == Height(tr) - n
  {
    if n == 0 {
      assert tr + Returns(0, now) == tr;
    } else {
      ReturnsAppend(tr, n - 1, now);
      Append(tr + Returns(n - 1, now), Returned(now));
      assert tr + Returns(n, now) == tr + Returns(n - 1, now) + [Returned(now)];
    }
  }

  /** What an action adds to the record. */
  ghost function Added(r: Recorder, a: Action): (more: seq<Event>)
    requires a.Possible(r)
    ensures a.Apply(r).trace == r.trace + more
    ensures more == [] <==> RecordsNothing(r, a)
    ensures forall i | 0 <= i < |more| :: more[i].tick == r.now && (|more| > 1 ==> more[i].Returned?)
  {
    match a
    case Call(_, _, to) => [Called(r.now, to)]
    case Return => [Returned(r.now)]
    case Unwind(stackptr) => Returns(|r.stack| - Kept(r.stack, stackptr), r.now)
    case Pass(_) => assert r.trace + [] == r.trace; []
  }

  lemma ActionKeeps(r: Recorder, a: Action)
    requires UpToNow(r) && a.Possible(r)
    ensures UpToNow(a.Apply(r))
  {
    TicksUpTo(r.trace, Added(r, a), r.now, a.Apply(r).now);
    match a
    case Call(_, _, to) => Append(r.trace, Called(r.now, to));
    case Return => Append(r.trace, Returned(r.now));
    case Unwind(stackptr) => ReturnsAppend(r.trace, |r.stack| - Kept(r.stack, stackptr), r.now);
    case Pass(_) =>
  }

  lemma TicksUpTo(tr: seq<Event>, more: seq<Event>, now: nat, later: nat)
    requires forall i | 0 <= i < |tr| :: tr[i].tick <= now
    requires forall i | 0 <= i < |more| :: more[i].tick == now
    requires now <= later
    ensures forall i | 0 <= i < |tr + more| :: (tr + more)[i].tick <= later
  {}

  /** Recording more at time `now` stays timely unless the last event was a call at `now`. */
  lemma TimelyAppend(tr: seq<Event>, more: seq<Event>, now: nat)
    requires forall i | 0 <= i < |tr| :: tr[i].tick <= now
    requires forall i | 0 <= i < |more| :: more[i].tick == now && (|more| > 1 ==> more[i].Returned?)
    ensures Timely(tr + more) <==>
      Timely(tr) && (tr != [] && tr[|tr|-1].Called? && tr[|tr|-1].tick == now ==> more == [])
  {
    var all := tr + more;
    if Timely(all) {
      TimelyPrefix(all, |tr|);
      assert all[..|tr|] == tr;
      if tr != [] && more != [] {
        assert all[|tr|-1] == tr[|tr|-1] && all[|tr|] == more[0];
        assert all[|tr|-1].tick <= all[|tr|].tick;
      }
    } else if Timely(tr) {
      var i, j :| 0 <= i < j < |all| && !(all[i].tick <= all[j].tick && (all[i].Called? ==> all[i].tick < all[j].tick));
      assert j >= |tr|;
      assert all[j] == more[j-|tr|];
    }
  }

  lemma ActionTimely(r: Recorder, a: Action)
    requires UpToNow(r) && a.Possible(r)
    ensures Timely(a.Apply(r).trace) <==> Timely(r.trace) && (JustCalled(r) ==> RecordsNothing(r, a))
  {
    TimelyAppend(r.trace, Added(r, a), r.now);
  }

  lemma TimelyPrefix(tr: seq<Event>, n: nat)
    requires Timely(tr) && n <= |tr|
    ensures Timely(tr[..n])
  {
    forall i, j {:trigger tr[..n][i].tick, tr[..n][j].tick} | 0 <= i < j < n
      ensures tr[..n][i].tick <= tr[..n][j].tick && (tr[..n][i].Called? ==> tr[..n][i].tick < tr[..n][j].tick)
    {
      assert tr[i].tick <= tr[j].tick;
    }
  }

  /** What any possible run records is balanced, as high as the stack, and timely exactly when calls
      take time. */
  lemma {:induction false} RecordKeeps(actions: seq<Action>)
    requires Record(actions).Some?
    ensures var r := Record(actions).value; UpToNow(r) && (Timely(r.trace) <==> CallsTakeTime(actions))
  {
    if actions != [] {
      var n := |actions| - 1;
      var before := actions[..n];
      RecordKeeps(before);
      ActionKeeps(Record(before).value, actions[n]);
      ActionTimely(Record(before).value, actions[n]);
    }
  }

  /** A call made as the k-th action is an event whose depth is the size of the call stack then, and
      stays in the record. */
  lemma {:induction false} CallDepthIsStackSize(actions: seq<Action>, k: nat)
    requires k < |actions| && actions[k].Call? && Record(actions).Some?
    ensures Record(actions[..k]).Some?
    ensures var before, tr := Record(actions[..k]).value, Record(actions).value.trace;
      && |before.trace| < |tr| && tr[|before.trace|] == Called(before.now, actions[k].to)
      && tr[..|before.trace|] == before.trace && Depth(tr, |before.trace|) == |before.stack|
    decreases |actions|
  {
    var n := |actions| - 1;
    if k < n {
      CallDepthIsStackSize(actions[..n], k);
      assert actions[..n][..k] == actions[..k];
      var tr, i := Record(actions[..n]).value.trace, |Record(actions[..k]).value.trace|;
      assert Record(actions).value.trace[..i] == tr[..i];
    } else {
      RecordKeeps(actions[..k]);
      var before := Record(actions[..k]).value;
      assert Record(actions).value.trace[..|before.trace|] == before.trace;
    }
  }
}
