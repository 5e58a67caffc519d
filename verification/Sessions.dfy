/** Whole sessions of a process: slices of its threads, with regions of code appearing and disappearing
    in between. */
module Sessions {
  import opened Types
  import opened CodeSegments
  import opened IntervalLaws
  import opened IntervalVectors
  import opened Processes
  import opened Dispatch
  import opened Upkeep
  import opened Machine
  import opened VmThreads
  import opened Interpreter
  import opened VirtualMachine

  datatype Event = Take(turn: Turn) | Map(base: u64, end: u64) | Unmap(base: u64, end: u64) {
    /** It is about one of `threads`, or a region as there can be one. */
    ghost predicate Possible(threads: set<VMThread>) {
      match this
      case Take(turn) => turn.thread in threads
      case Map(base, end) => base < end
      case Unmap(base, end) => base <= end
    }
  }

  /** What a thread has for itself: its saved processor and call stack of the compiler, its clock, its request and
      its recorded calls. */
  datatype Own = Own(saved: SavedCpuState, stack: JitStack, time: Clock, atomic: bool, calls: Recording)

  /** What a process is between events: the registered blocks, the intervals that own them, the memory, the call
      stack the compiler was left with, and what each thread has for itself. */
  datatype Shared = Shared(blocks: map<u64, BasicBlock>, pieces: seq<Piece<CodeSegment>>, memory: Memory,
                           stack: JitStack, own: map<VMThread, Own>)

  ghost function OwnOf(t: VMThread): Own
    reads t`savedCpuState, t`savedJitStack, t`requestsAtomic, t.time, t.calls
  {
    Own(t.savedCpuState, t.savedJitStack, t.time.ToClock(), t.requestsAtomic, t.calls.ToRecording())
  }

  /** The objects that make up `threads`. */
  ghost function Parts(threads: set<VMThread>): set<object> {
    (set t | t in threads :: t as object) + (set t | t in threads :: t.time as object)
      + set t | t in threads :: t.calls as object
  }

  ghost function Owns(threads: set<VMThread>): (r: map<VMThread, Own>)
    reads Parts(threads)
    ensures r.Keys == threads
  {
    map t | t in threads :: OwnOf(t)
  }

  /** Threads with clocks and records of their own. */
  ghost predicate Apart(threads: set<VMThread>)
    reads Parts(threads)
  {
    && (forall t | t in threads :: t.calls.Valid())
    && forall s, t | s in threads && t in threads && s != t :: s.time != t.time && s.calls != t.calls
  }

  ghost function Seen(vm: VM, p: Process, w: World, own: map<VMThread, Own>): Shared
    reads vm`memory, vm`jitStack, p`codeSegmentsByAddress
  {
    Shared(Blocks(p.codeSegmentsByAddress), w.pieces, vm.memory, vm.jitStack, own)
  }

  ghost function Now(vm: VM, p: Process, w: World, threads: set<VMThread>): Shared
    reads vm`memory, vm`jitStack, p`codeSegmentsByAddress, Parts(threads)
  {
    Seen(vm, p, w, Owns(threads))
  }

  /** Why `e` cannot happen now: the thread's time is ahead, the region overlaps another, or its removal
      would leave the registry out of step or a return edge dangling. */
  ghost predicate Refused(e: Event, w: World, jit: Option<Jit>)
    reads if e.Take? then {e.turn.thread.time} else {}, w.graph.Keys`ret
  {
    match e
    case Take(turn) => Late(turn)
    case Map(base, end) => Meets(w.pieces, base, end)
    case Unmap(base, end) => !Removable(w, base, end, jit)
  }

  /** What was done, and how things were before and after it. A slice ran with its clock set to `clock`, and
      `last` is the image after it. */
  datatype Done =
    | Sliced(from: Shared, to: Shared, slice: Slice, clock: Clock, last: Image, finished: bool)
    | Mapped(from: Shared, to: Shared, pos: nat)
    | Unmapped(from: Shared, to: Shared, visited: seq<CodeSegment>)
  {
    /** It is what `e` asks for. A slice starts with what its thread was left with, on the clock asked for and,
        finished, has used it up; it is a run of the plain loop, adds segments only, and changes nothing that
        another thread has. A new region adds an empty interval. A removal unregisters just the segments near
        the region, uncovers it, and leaves no block there that was housed. */
    ghost predicate Answers(isa: Isa, jit: Option<Jit>, e: Event) {
      match this
      case Sliced(from, to, slice, clock, last, finished) =>
        && e.Take? && slice.thread == e.turn.thread && slice.thread in from.own
        && Slices(isa, jit, e.turn, from.own[slice.thread])
        && Sorted(from.pieces) && Grows(from.pieces, to.pieces, SegmentStart)
      case Mapped(from, to, pos) =>
        && e.Map? && InsertsAt(from.pieces, e.base, pos)
        && to == from.(pieces := Spliced(from.pieces, pos, Piece(e.base, e.end, multiset{})))
      case Unmapped(from, to, visited) =>
        && e.Unmap? && to == from.(blocks := from.blocks - StartsOf(visited), pieces := to.pieces)
        && Cleared(from.pieces, e.base, e.end, visited, to.pieces)
        && (Housed(from.pieces, SegmentStart) ==> forall a | a in to.blocks :: !(e.base <= a <= e.end))
    }

    /** The slice of a thread that has `own`. */
    ghost predicate Slices(isa: Isa, jit: Option<Jit>, turn: Turn, own: Own)
      requires Sliced?
    {
      && Alone(isa, jit, turn, own, from, slice, clock, last, finished)
      && to == Shared(last.blocks, to.pieces, last.core.memory, last.core.jitStack,
                      from.own[slice.thread := LeftWith(jit, own, slice, last, finished)])
    }
  }

  /** A slice as `turn` asks, of its thread that has `own`, where the process is as in `from`. */
  ghost predicate Alone(isa: Isa, jit: Option<Jit>, turn: Turn, own: Own, from: Shared, slice: Slice, clock: Clock,
                        last: Image, finished: bool) {
    && slice.thread == turn.thread && slice.began == own.saved && slice.stack == own.stack
    && Step.NewSlice(turn.current, turn.duration).Apply(own.time) == Some(clock)
    && slice.Plain(isa, jit, StartOf(from, own, clock), last)
    && (finished ==> last.core.time.Stopped())
  }

  ghost function StartOf(from: Shared, own: Own, clock: Clock): Image {
    Image(from.blocks, Core(INITIAL_STATE, from.memory, clock, own.atomic, own.calls, from.stack))
  }

  /** What the thread has after it: an atomic slice that finishes ends the request for it. */
  ghost function LeftWith(jit: Option<Jit>, own: Own, slice: Slice, last: Image, finished: bool): Own {
    Own(slice.ended, if jit.Some? then last.core.jitStack else own.stack, last.core.time,
        last.core.atomic && !(finished && own.atomic), last.core.calls)
  }

  /** One after another the first events were answered, each where the one before it left off. */
  ghost predicate Session(isa: Isa, jit: Option<Jit>, start: Shared, events: seq<Event>, done: seq<Done>, end: Shared) {
    if done == [] then start == end
    else
      var n := |done| - 1;
      && n < |events| && done[n].Answers(isa, jit, events[n]) && done[n].to == end
      && Session(isa, jit, start, events, done[..n], done[n].from)
  }

  lemma SessionGoesOn(isa: Isa, jit: Option<Jit>, start: Shared, events: seq<Event>, done: seq<Done>, d: Done)
    requires |done| < |events| && d.Answers(isa, jit, events[|done|])
    requires Session(isa, jit, start, events, done, d.from)
    ensures Session(isa, jit, start, events, done + [d], d.to)
  {
    assert (done + [d])[..|done|] == done;
  }

  /** What thread `t` was left with by the last of its slices, `initial` if it had none. */
  ghost function LeftBy(done: seq<Done>, t: VMThread, initial: Own): Own {
    if done == [] then initial
    else
      var n := |done| - 1;
      if done[n].Sliced? && done[n].slice.thread == t && t in done[n].to.own then done[n].to.own[t]
      else LeftBy(done[..n], t, initial)
  }

  /** `own` is what each thread was left with. */
  ghost predicate Lefts(start: Shared, done: seq<Done>, own: map<VMThread, Own>) {
    own.Keys == start.own.Keys && forall t | t in start.own :: own[t] == LeftBy(done, t, start.own[t])
  }

  /** The k-th thing done, if a slice, starts with what its thread's last slice left. */
  ghost predicate IsolatedAt(isa: Isa, jit: Option<Jit>, start: Shared, events: seq<Event>, done: seq<Done>, k: nat)
    requires k < |done| <= |events|
  {
    done[k].Sliced? ==>
      var t := done[k].slice.thread;
      && events[k].Take? && t == events[k].turn.thread && t in start.own
      && done[k].Slices(isa, jit, events[k].turn, LeftBy(done[..k], t, start.own[t]))
  }

  /** Threads are isolated: whatever happens in between, a slice starts with the processor, the clock, the request
      and the recorded calls that the thread's last slice left, and each thread ends with what its last one left. */
  ghost predicate Isolated(isa: Isa, jit: Option<Jit>, start: Shared, events: seq<Event>, done: seq<Done>,
                           end: Shared) {
    && |done| <= |events| && Lefts(start, done, end.own)
    && forall k {:trigger IsolatedAt(isa, jit, start, events, done, k)} | 0 <= k < |done| ::
      IsolatedAt(isa, jit, start, events, done, k)
  }

  lemma IsolatedLonger(isa: Isa, jit: Option<Jit>, start: Shared, events: seq<Event>, done: seq<Done>, n: nat, k: nat)
    requires k < n <= |done| <= |events| && IsolatedAt(isa, jit, start, events, done[..n], k)
    ensures IsolatedAt(isa, jit, start, events, done, k)
  {
    assert done[..n][..k] == done[..k];
  }

  lemma LeftsNext(isa: Isa, jit: Option<Jit>, start: Shared, events: seq<Event>, done: seq<Done>)
    requires 0 < |done| <= |events| && done[|done|-1].Answers(isa, jit, events[|done|-1])
    requires Lefts(start, done[..|done|-1], done[|done|-1].from.own)
    ensures Lefts(start, done, done[|done|-1].to.own)
  {
    var n := |done| - 1;
    forall t | t in start.own ensures done[n].to.own[t] == LeftBy(done, t, start.own[t]) {
      assert done[n].from.own[t] == LeftBy(done[..n], t, start.own[t]);
    }
  }

  lemma IsolatedNext(isa: Isa, jit: Option<Jit>, start: Shared, events: seq<Event>, done: seq<Done>)
    requires 0 < |done| <= |events| && done[|done|-1].Answers(isa, jit, events[|done|-1])
    requires Lefts(start, done[..|done|-1], done[|done|-1].from.own)
    ensures IsolatedAt(isa, jit, start, events, done, |done| - 1)
  {}

  lemma {:induction false} SessionIsolated(isa: Isa, jit: Option<Jit>, start: Shared, events: seq<Event>,
                                           done: seq<Done>, end: Shared)
    requires Session(isa, jit, start, events, done, end)
    ensures Isolated(isa, jit, start, events, done, end)
  {
    if done != [] {
      var n := |done| - 1;
      SessionIsolated(isa, jit, start, events, done[..n], done[n].from);
      LeftsNext(isa, jit, start, events, done);
      IsolatedNext(isa, jit, start, events, done);
      forall k | 0 <= k < n ensures IsolatedAt(isa, jit, start, events, done, k) {
        IsolatedLonger(isa, jit, start, events, done, n, k);
      }
    }
  }

  /** All segments that a slice adds start where something is covered. */
  ghost predicate Placed(done: seq<Done>) {
    forall d | d in done && d.Sliced? :: PlacedIn(d.from.pieces, d.to.pieces)
  }

  ghost predicate PlacedIn(before: seq<Piece<CodeSegment>>, after: seq<Piece<CodeSegment>>) {
    forall s | s in ItemSet(after) && s !in ItemSet(before) :: Covers(before, SegmentStart(s))
  }

  /** Code stays housed in its intervals through a session that only fetches where something is covered. */
  lemma {:induction false} SessionHoused(isa: Isa, jit: Option<Jit>, start: Shared, events: seq<Event>, done: seq<Done>,
                                         end: Shared)
    requires Session(isa, jit, start, events, done, end) && Placed(done) && Housed(start.pieces, SegmentStart)
    ensures Housed(end.pieces, SegmentStart)
  {
    if done != [] {
      var n := |done| - 1;
      SessionHoused(isa, jit, start, events, done[..n], done[n].from);
      DoneHoused(isa, jit, done[n], events[n]);
    }
  }

  lemma DoneHoused(isa: Isa, jit: Option<Jit>, d: Done, e: Event)
    requires d.Answers(isa, jit, e) && (d.Sliced? ==> PlacedIn(d.from.pieces, d.to.pieces))
    requires Housed(d.from.pieces, SegmentStart)
    ensures Housed(d.to.pieces, SegmentStart)
  {
    match d
    case Sliced(from, to, _, _, _, _) =>
      var before, after := from.pieces, to.pieces;
      forall x | x in Items(after) && x !in Items(before) ensures Covers(before, SegmentStart(x)) {
        assert x in ItemSet(after) && x !in ItemSet(before);
      }
      GrowsHoused(before, after, SegmentStart);
    case Mapped(from, to, pos) =>
      forall k | 0 <= k < |to.pieces| ensures Houses(to.pieces[k], SegmentStart) {
        assert forall j | 0 <= j < |from.pieces| :: Houses(from.pieces[j], SegmentStart);
      }
    case Unmapped(_, _, _) =>
  }

  /** In such a session a removed region holds no registered block: no stale code is left to run. */
  lemma {:induction false} RemovedCodeIsGone(isa: Isa, jit: Option<Jit>, start: Shared, events: seq<Event>,
                                             done: seq<Done>, end: Shared, k: nat)
    requires Session(isa, jit, start, events, done, end) && Placed(done) && Housed(start.pieces, SegmentStart)
    requires k < |done| && done[k].Unmapped?
    ensures k < |events| && events[k].Unmap?
    ensures forall a | a in done[k].to.blocks :: !(events[k].base <= a <= events[k].end)
  {
    var n := |done| - 1;
    if k < n {
      RemovedCodeIsGone(isa, jit, start, events, done[..n], done[n].from, k);
    } else {
      SessionHoused(isa, jit, start, events, done[..n], done[n].from);
    }
  }

  lemma BlocksLess(registry: map<u64, CodeSegment>, gone: set<u64>)
    ensures Blocks(registry - gone) == Blocks(registry) - gone
  {}

  /** Whether an interval of code meets [base, end). */
  method Overlaps(p: Process, base: u64, end: u64, ghost jit: Option<Jit>, ghost w: World) returns (meets: bool)
    requires Ready(p, w, jit)
    ensures Ready(p, w, jit)
    ensures meets <==> Meets(w.pieces, base, end)
  {
    meets := false;
    var i := 0;
    while i < |p.codeSegments.values| && !meets
      invariant i <= |p.codeSegments.values| == |w.pieces|
      invariant meets <==> exists k | 0 <= k < i :: w.pieces[k].start < end && base < w.pieces[k].end
    {
      assert p.codeSegments.values[i].ToPiece() == w.pieces[i];
      meets := p.codeSegments.values[i].start < end && base < p.codeSegments.values[i].end;
      i := i + 1;
    }
  }

  /** The segments filed in intervals that touch [base, end]. */
  method Around(p: Process, base: u64, end: u64, ghost jit: Option<Jit>, ghost w: World)
    returns (near: seq<CodeSegment>)
    requires Ready(p, w, jit)
    ensures Ready(p, w, jit)
    ensures forall s: CodeSegment :: s in near <==> Near(w.pieces, base, end, s)
  {
    near := [];
    var i := 0;
    while i < |p.codeSegments.values|
      invariant i <= |p.codeSegments.values| == |w.pieces|
      invariant forall s: CodeSegment :: s in near <==> Near(w.pieces[..i], base, end, s)
    {
      var interval := p.codeSegments.values[i];
      assert interval.ToPiece() == w.pieces[i];
      NearNext(w.pieces, base, end, i);
      if base <= interval.end && interval.start <= end { near := near + interval.items; }
      i := i + 1;
    }
    assert w.pieces[..i] == w.pieces;
  }

  lemma NearNext(ps: seq<Piece<CodeSegment>>, base: u64, end: u64, i: nat)
    requires i < |ps|
    ensures forall s: CodeSegment :: Near(ps[..i+1], base, end, s) <==>
      Near(ps[..i], base, end, s) || (s in ps[i].items && Touching(ps[i], base, end))
  {
    forall s: CodeSegment ensures Near(ps[..i+1], base, end, s) <==>
      Near(ps[..i], base, end, s) || (s in ps[i].items && Touching(ps[i], base, end))
    {
      assert ps[..i+1] == ps[..i] + [ps[i]];
      NearAppend(ps[..i], ps[i], base, end, s);
    }
  }

  lemma NearAppend(ps: seq<Piece<CodeSegment>>, q: Piece<CodeSegment>, base: u64, end: u64, s: CodeSegment)
    ensures Near(ps + [q], base, end, s) <==> Near(ps, base, end, s) || (s in q.items && Touching(q, base, end))
  {
    var all := ps + [q];
    assert all[|ps|] == q;
    if Near(ps, base, end, s) {
      var j :| 0 <= j < |ps| && s in ps[j].items && Touching(ps[j], base, end);
      assert all[j] == ps[j];
    }
  }

  /** Whether the dispatch loop may go on after [base, end) is removed. */
  method MayRemove(p: Process, base: u64, end: u64, jit: Option<Jit>, ghost w: World) returns (yes: bool)
    requires Ready(p, w, jit)
    ensures Ready(p, w, jit) && (yes <==> Removable(w, base, end, jit))
  {
    var near := Around(p, base, end, jit, w);
    var registry := p.codeSegmentsByAddress;
    SafeByStart(p, w, base, end, near);
    yes := forall t | t in near :: t.start() in registry ==> registry[t.start()] in near;
    if jit.Some? {
      yes := yes && forall a | a in registry ::
        registry[a] in near || registry[a].ret == null || registry[a].ret !in near;
      NoneReturnsByStart(p, w, base, end, near, jit);
    }
  }

  lemma SafeByStart(p: Process, w: World, base: u64, end: u64, near: seq<CodeSegment>)
    requires Good(p, w) && forall s: CodeSegment :: s in near <==> Near(w.pieces, base, end, s)
    ensures var registry := p.codeSegmentsByAddress;
      Safe(w, base, end) <==> forall t | t in near :: t.start() in registry ==> registry[t.start()] in near
  {
    var registry := p.codeSegmentsByAddress;
    if Safe(w, base, end) {
      forall t | t in near && t.start() in registry ensures registry[t.start()] in near {
        assert registry[t.start()] in registry.Values;
        NearIsOwned(p, w, base, end, t);
      }
    } else {
      var s, t :| s in w.graph && t in w.owned && !Near(w.pieces, base, end, s) && Near(w.pieces, base, end, t)
        && s.start() == t.start();
      LinkedIsRegistered(p, w.graph, s);
    }
  }

  lemma NearIsOwned(p: Process, w: World, base: u64, end: u64, s: CodeSegment)
    requires Good(p, w) && Near(w.pieces, base, end, s)
    ensures s in w.owned
  {
    InSome(w.pieces, s);
  }

  lemma NoneReturnsByStart(p: Process, w: World, base: u64, end: u64, near: seq<CodeSegment>, jit: Option<Jit>)
    requires Ready(p, w, jit) && jit.Some? && forall s: CodeSegment :: s in near <==> Near(w.pieces, base, end, s)
    ensures var registry := p.codeSegmentsByAddress;
      NoneReturns(w, base, end) <==>
        forall a | a in registry :: registry[a] in near || registry[a].ret == null || registry[a].ret !in near
  {
    var registry := p.codeSegmentsByAddress;
    forall a | a in registry ensures registry[a] in w.graph { assert registry[a] in registry.Values; }
    forall s | s in w.graph ensures s.start() in registry && registry[s.start()] == s {
      LinkedIsRegistered(p, w.graph, s);
    }
  }

  /** Sets the clock for a slice, unless the thread is late. */
  method SetClock(vm: VM, turn: Turn, ghost still: set<object>, ghost p: Process, ghost jit: Option<Jit>,
                  ghost w: World) returns (ok: bool)
    requires Ready(p, w, jit) && vm.Idle() && turn.thread.calls.Valid() && turn.thread.time !in still
    modifies turn.thread.time
    ensures Ready(p, w, jit) && vm.Idle() && turn.thread.calls.Valid() && unchanged(vm) && unchanged(p)
    ensures unchanged(still)
    ensures Step.NewSlice(turn.current, turn.duration).Apply(old(turn.thread.time.ToClock()))
      == if ok then Some(turn.thread.time.ToClock()) else None
    ensures OwnOf(turn.thread) == old(OwnOf(turn.thread)).(time := turn.thread.time.ToClock())
    ensures ok <==> turn.current >= old(turn.thread.time.Ns())
    ensures ok ==> turn.thread.time.Ns() == turn.current && turn.thread.time.ToClock().Left() == turn.duration
    ensures !ok ==> Late(turn) && turn.thread.time.ToClock() == old(turn.thread.time.ToClock())
  {
    ok := turn.thread.time.SetSlice(turn.current, turn.duration);
  }

  /** The slice, with its clock set; an atomic one that finishes ends the request for it. */
  method SliceNow(vm: VM, thread: VMThread, ghost still: set<object>, p: Process, jit: Option<Jit>,
                  queue: CompilationQueue, ghost w: World)
    returns (ok: bool, ghost v: World, ghost news: set<CodeSegment>, ghost slice: Slice, ghost last: Image)
    requires vm.isa.Sound() && Ready(p, w, jit) && vm.Idle() && thread.calls.Valid()
    requires vm !in still && p !in still && queue !in still && still !! w.graph.Keys && still !! p.codeSegments.Repr
    requires thread !in still && thread.time !in still && thread.calls !in still
    modifies vm`cpu, vm`memory, vm`jitStack, vm`currentThread, thread`savedCpuState, thread`savedJitStack
    modifies thread`requestsAtomic, thread.time, thread.calls, queue
    modifies p`codeSegmentsByAddress, p.codeSegments.Repr, w.graph.Keys
    ensures Ready(p, v, jit) && vm.Idle() && Onward(w, v) && thread.calls.Valid()
    ensures unchanged(still) && v.graph.Keys <= w.graph.Keys + news && fresh(news)
    ensures slice.thread == thread && slice.began == old(thread.savedCpuState)
    ensures slice.stack == old(thread.savedJitStack)
    ensures slice.Plain(vm.isa, jit, old(vm.ToImage(p, thread)), last)
    ensures if ok then last.core.time.Stopped() else slice.Failed(vm.isa, jit, p, v)
    ensures last.blocks == Blocks(p.codeSegmentsByAddress) && last.core.memory == vm.memory
    ensures last.core.jitStack == vm.jitStack
    ensures OwnOf(thread) == LeftWith(jit, old(OwnOf(thread)), slice, last, ok)
    ensures thread.requestsAtomic <==> last.core.atomic && !(ok && old(thread.requestsAtomic))
    ensures thread.savedCpuState == slice.ended && thread.time.ToClock() == last.core.time
    ensures thread.calls.ToRecording() == last.core.calls
    ensures thread.savedJitStack == if jit.Some? then vm.jitStack else old(thread.savedJitStack)
  {
    var atomic := thread.requestsAtomic;
    ghost var first, more;
    ok, v, slice, first, more := vm.Execute(thread, p, jit, queue, w);
    news, last := first + more, vm.ToImage(p, thread);
    if !ok || !atomic { return; }
    EndAtomic(vm, thread, still, p, jit, v);
  }

  method EndAtomic(vm: VM, thread: VMThread, ghost still: set<object>, ghost p: Process, ghost jit: Option<Jit>,
                   ghost w: World)
    requires Ready(p, w, jit) && vm.Idle() && thread.calls.Valid() && thread !in still
    modifies thread`requestsAtomic
    ensures Ready(p, w, jit) && vm.Idle() && thread.calls.Valid() && unchanged(vm) && unchanged(p)
    ensures unchanged(still)
    ensures OwnOf(thread) == old(OwnOf(thread)).(atomic := false)
  {
    thread.ResetAtomicRequest();
  }

  lemma OwnSplit(threads: set<VMThread>, t: VMThread)
    requires t in threads
    ensures Owns(threads) == Owns(threads - {t})[t := OwnOf(t)]
  {}

  /** A slice of a thread, if its time allows one now, while the objects of `still` stay as they are. It fails only
      where it halts. */
  method TakeAlone(vm: VM, turn: Turn, ghost still: set<object>, p: Process, jit: Option<Jit>,
                    queue: CompilationQueue, ghost w: World)
    returns (ok: bool, late: bool, ghost v: World, ghost news: set<CodeSegment>, ghost slice: Slice, ghost clock: Clock,
             ghost last: Image)
    requires vm.isa.Sound() && Ready(p, w, jit) && vm.Idle() && turn.thread.calls.Valid()
    requires vm !in still && p !in still && queue !in still && still !! w.graph.Keys && still !! p.codeSegments.Repr
    requires turn.thread !in still && turn.thread.time !in still && turn.thread.calls !in still
    modifies vm`cpu, vm`memory, vm`jitStack, vm`currentThread, turn.thread`savedCpuState, turn.thread`savedJitStack
    modifies turn.thread`requestsAtomic, turn.thread.time, turn.thread.calls, queue
    modifies p`codeSegmentsByAddress, p.codeSegments.Repr, w.graph.Keys
    ensures unchanged(still)
    ensures Ready(p, v, jit) && vm.Idle() && Onward(w, v) && turn.thread.calls.Valid()
    ensures v.graph.Keys <= w.graph.Keys + news && fresh(news)
    ensures if late then
        && !ok && v == w && Late(turn) && OwnOf(turn.thread) == old(OwnOf(turn.thread))
        && Seen(vm, p, v, map[]) == old(Seen(vm, p, w, map[]))
      else
        && Alone(vm.isa, jit, turn, old(OwnOf(turn.thread)), old(Seen(vm, p, w, map[])), slice, clock, last, ok)
        && OwnOf(turn.thread) == LeftWith(jit, old(OwnOf(turn.thread)), slice, last, ok)
        && Seen(vm, p, v, map[]) == Shared(last.blocks, v.pieces, last.core.memory, last.core.jitStack, map[])
        && (ok || slice.Failed(vm.isa, jit, p, v))
  {
    ok := SetClock(vm, turn, still, p, jit, w);
    late, v, news, clock, last := !ok, w, {}, turn.thread.time.ToClock(), vm.ToImage(p, turn.thread);
    slice := Slice(turn.thread, turn.thread.savedCpuState, [], [], turn.thread.savedCpuState, null);
    if late { return; }
    ok, v, news, slice, last := SliceNow(vm, turn.thread, still, p, jit, queue, w);
  }

  lemma Others(threads: set<VMThread>, t: VMThread, vm: VM, p: Process, queue: CompilationQueue,
               segments: set<CodeSegment>, intervals: set<IntervalValue<CodeSegment>>)
    requires Apart(threads) && t in threads
    ensures var others := Parts(threads - {t});
      && vm !in others && p !in others && queue !in others && others !! segments && others !! intervals
      && t !in others && t.time !in others && t.calls !in others && Apart(threads - {t})
  {}

  /** Its calls apart, nothing of a thread can come near those of others. */
  lemma Rejoined(threads: set<VMThread>, t: VMThread)
    requires t in threads && Apart(threads - {t}) && t.calls.Valid()
    requires t.time !in Parts(threads - {t}) && t.calls !in Parts(threads - {t})
    ensures Apart(threads)
  {
    forall s | s in threads && s != t ensures s.time != t.time && s.calls != t.calls {
      assert s in threads - {t} && s.time in Parts(threads - {t}) && s.calls in Parts(threads - {t});
    }
  }

  lemma SliceAnswers(isa: Isa, jit: Option<Jit>, turn: Turn, own: Own, others: map<VMThread, Own>, d: Done)
    requires d.Sliced? && Sorted(d.from.pieces) && Grows(d.from.pieces, d.to.pieces, SegmentStart)
    requires Alone(isa, jit, turn, own, d.from.(own := map[]), d.slice, d.clock, d.last, d.finished)
    requires d.from.own == others[turn.thread := own]
    requires d.to.own == others[turn.thread := LeftWith(jit, own, d.slice, d.last, d.finished)]
    requires d.to == Shared(d.last.blocks, d.to.pieces, d.last.core.memory, d.last.core.jitStack, d.to.own)
    ensures d.Answers(isa, jit, Take(turn))
  {
    assert d.to.own == d.from.own[turn.thread := LeftWith(jit, own, d.slice, d.last, d.finished)];
  }

  /** The same among other threads. */
  method TakeOne(vm: VM, turn: Turn, ghost threads: set<VMThread>, p: Process, jit: Option<Jit>,
                 queue: CompilationQueue, ghost w: World)
    returns (ok: bool, late: bool, ghost v: World, ghost news: set<CodeSegment>, ghost one: Done)
    requires vm.isa.Sound() && Ready(p, w, jit) && vm.Idle() && Apart(threads) && turn.thread in threads
    modifies vm`cpu, vm`memory, vm`jitStack, vm`currentThread, turn.thread`savedCpuState, turn.thread`savedJitStack
    modifies turn.thread`requestsAtomic, turn.thread.time, turn.thread.calls, queue
    modifies p`codeSegmentsByAddress, p.codeSegments.Repr, w.graph.Keys
    ensures Ready(p, v, jit) && vm.Idle() && Onward(w, v) && Apart(threads)
    ensures v.graph.Keys <= w.graph.Keys + news && fresh(news)
    ensures one.from == old(Now(vm, p, w, threads)) && one.to == Now(vm, p, v, threads)
    ensures late ==> !ok && v == w && one.to == one.from && Late(turn)
    ensures !late ==> one.Sliced? && one.finished == ok && one.Answers(vm.isa, jit, Take(turn))
    ensures !late ==> ok || one.slice.Failed(vm.isa, jit, p, v)
  {
    ghost var from, others, own := Now(vm, p, w, threads), threads - {turn.thread}, OwnOf(turn.thread);
    OwnSplit(threads, turn.thread);
    Others(threads, turn.thread, vm, p, queue, w.graph.Keys, p.codeSegments.Repr);
    ghost var slice, clock, last;
    ok, late, v, news, slice, clock, last := TakeAlone(vm, turn, Parts(others), p, jit, queue, w);
    OwnSplit(threads, turn.thread);
    one := Sliced(from, Now(vm, p, v, threads), slice, clock, last, ok);
    assert late ==> one.to == from;
    if !late { SliceAnswers(vm.isa, jit, turn, own, Owns(others), one); }
    Rejoined(threads, turn.thread);
  }

  lemma NotAVector(p: Process, segments: set<CodeSegment>, intervals: set<IntervalValue<CodeSegment>>)
    ensures {p.codeSegments} !! segments && {p.codeSegments} !! intervals
  {}

  /** The same as an event of a session. */
  method TakeEvent(vm: VM, turn: Turn, ghost threads: set<VMThread>, p: Process, jit: Option<Jit>,
                   queue: CompilationQueue, ghost w: World)
    returns (ok: bool, ghost v: World, ghost done: seq<Done>)
    requires vm.isa.Sound() && Ready(p, w, jit) && vm.Idle() && Apart(threads) && turn.thread in threads
    modifies vm`cpu, vm`memory, vm`jitStack, vm`currentThread, turn.thread`savedCpuState, turn.thread`savedJitStack
    modifies turn.thread`requestsAtomic, turn.thread.time, turn.thread.calls, queue
    modifies p`codeSegmentsByAddress, p.codeSegments.Repr, w.graph.Keys
    ensures Ready(p, v, jit) && vm.Idle() && v.calm == w.calm && Apart(threads)
    ensures fresh(v.owned - w.owned) && p.codeSegments.Repr == old(p.codeSegments.Repr)
    ensures if done == [] then !ok && v == w && Now(vm, p, v, threads) == old(Now(vm, p, w, threads)) && Late(turn)
      else
        && |done| == 1 && done[0].Sliced? && done[0].finished == ok && done[0].Answers(vm.isa, jit, Take(turn))
        && done[0].from == old(Now(vm, p, w, threads)) && done[0].to == Now(vm, p, v, threads)
        && (ok || done[0].slice.Failed(vm.isa, jit, p, v))
  {
    ghost var news, one;
    var late;
    NotAVector(p, w.graph.Keys, p.codeSegments.Repr);
    ok, late, v, news, one := TakeOne(vm, turn, threads, p, jit, queue, w);
    assert unchanged(p.codeSegments);
    assert v.owned <= w.owned + news;
    done := [];
    if !late { done := [one]; }
  }

  /** A region of code appears: an interval more, and nothing else. It is refused when it reaches into the next
      one; the process stays ready iff it meets no other or is refused. */
  method MapOne(vm: VM, base: u64, end: u64, ghost own: map<VMThread, Own>, ghost still: set<object>, p: Process,
                jit: Option<Jit>, ghost w: World)
    returns (ok: bool, ghost pos: nat, ghost v: World, ghost done: Done)
    requires Ready(p, w, jit) && base < end && p.codeSegments !in still
    modifies p.codeSegments`values, p.codeSegments`Repr
    ensures InsertsAt(w.pieces, base, pos) && ok == (pos < |w.pieces| ==> end <= w.pieces[pos].start)
    ensures unchanged(still)
    ensures Ready(p, v, jit) <==> !ok || !Meets(w.pieces, base, end)
    ensures !Meets(w.pieces, base, end) ==> ok
    ensures v == w.(pieces := v.pieces) && fresh(p.codeSegments.Repr - old(p.codeSegments.Repr))
    ensures if ok then done.Mapped? && done.pos == pos && done.Answers(vm.isa, jit, Map(base, end)) else v == w
    ensures done.from == old(Seen(vm, p, w, own)) && done.to == Seen(vm, p, v, own)
  {
    ghost var from := Seen(vm, p, w, own);
    ok, pos, v := ReserveReady(p, base, end, jit, w);
    done := Mapped(from, Seen(vm, p, v, own), pos);
  }

  /** Removing a region touches no object of `still`. */
  method Remove(p: Process, base: u64, end: u64, ghost still: set<object>, jit: Option<Jit>, ghost w: World)
    returns (ghost v: World, ghost visited: seq<CodeSegment>)
    requires Ready(p, w, jit) && base <= end
    requires p !in still && p.codeSegments !in still && still !! w.owned && still !! p.codeSegments.Repr
    modifies p`codeSegmentsByAddress, p.codeSegments`values, p.codeSegments`Repr, p.codeSegments.Repr
    modifies w.owned`fixedInfo, w.owned`variableInfo, w.owned`successors, w.owned`predecessors, w.owned`jitBasicBlock
    ensures unchanged(still) && v.owned <= w.owned && fresh(p.codeSegments.Repr - old(p.codeSegments.Repr))
    ensures p.codeSegmentsByAddress == old(p.codeSegmentsByAddress) - StartsOf(visited)
    ensures Ready(p, v, jit) <==> old(Removable(w, base, end, jit))
    ensures Cleared(w.pieces, base, end, visited, v.pieces)
    ensures Housed(w.pieces, SegmentStart) ==> forall a | a in p.codeSegmentsByAddress :: !(base <= a <= end)
  {
    v, visited := InvalidateReady(p, base, end, jit, w);
  }

  /** A region of code disappears: just the blocks near it are gone, and nothing covers it any more. */
  method UnmapOne(vm: VM, base: u64, end: u64, ghost own: map<VMThread, Own>, ghost still: set<object>, p: Process,
                  jit: Option<Jit>, ghost w: World)
    returns (ghost v: World, ghost done: Done)
    requires Ready(p, w, jit) && base <= end
    requires p !in still && p.codeSegments !in still && still !! w.owned && still !! p.codeSegments.Repr
    modifies p`codeSegmentsByAddress, p.codeSegments`values, p.codeSegments`Repr, p.codeSegments.Repr
    modifies w.owned`fixedInfo, w.owned`variableInfo, w.owned`successors, w.owned`predecessors, w.owned`jitBasicBlock
    ensures unchanged(still) && v.owned <= w.owned && fresh(p.codeSegments.Repr - old(p.codeSegments.Repr))
    ensures Ready(p, v, jit) <==> old(Removable(w, base, end, jit))
    ensures done.Unmapped? && done.Answers(vm.isa, jit, Unmap(base, end))
    ensures done.from == old(Seen(vm, p, w, own)) && done.to == Seen(vm, p, v, own)
  {
    ghost var visited;
    ghost var from := Seen(vm, p, w, own);
    v, visited := Remove(p, base, end, still, jit, w);
    BlocksLess(old(p.codeSegmentsByAddress), StartsOf(visited));
    done := Unmapped(from, Seen(vm, p, v, own), visited);
  }

  /** A region appears, unless it would overlap another. */
  method MapEvent(vm: VM, base: u64, end: u64, ghost own: map<VMThread, Own>, ghost still: set<object>, p: Process,
                  jit: Option<Jit>, ghost w: World)
    returns (ok: bool, ghost v: World, ghost done: seq<Done>)
    requires Ready(p, w, jit) && base < end && p.codeSegments !in still
    modifies p.codeSegments`values, p.codeSegments`Repr
    ensures Ready(p, v, jit) && v.owned == w.owned && v.calm == w.calm
    ensures unchanged(still) && fresh(p.codeSegments.Repr - old(p.codeSegments.Repr))
    ensures if done == [] then !ok && v == w && Seen(vm, p, v, own) == old(Seen(vm, p, w, own))
      && Meets(w.pieces, base, end)
      else
        && ok && |done| == 1 && done[0].Mapped? && done[0].Answers(vm.isa, jit, Map(base, end))
        && done[0].from == old(Seen(vm, p, w, own)) && done[0].to == Seen(vm, p, v, own)
  {
    var meets := Overlaps(p, base, end, jit, w);
    if meets { return false, w, []; }
    ghost var pos, one;
    ok, pos, v, one := MapOne(vm, base, end, own, still, p, jit, w);
    done := [one];
  }

  /** A region disappears, unless the dispatch loop could not go on. */
  method UnmapEvent(vm: VM, base: u64, end: u64, ghost own: map<VMThread, Own>, ghost still: set<object>, p: Process,
                  jit: Option<Jit>, ghost w: World)
    returns (ok: bool, ghost v: World, ghost done: seq<Done>)
    requires Ready(p, w, jit) && base <= end
    requires p !in still && p.codeSegments !in still && still !! w.owned && still !! p.codeSegments.Repr
    modifies p`codeSegmentsByAddress, p.codeSegments`values, p.codeSegments`Repr, p.codeSegments.Repr
    modifies w.owned`fixedInfo, w.owned`variableInfo, w.owned`successors, w.owned`predecessors, w.owned`jitBasicBlock
    ensures Ready(p, v, jit) && v.owned <= w.owned && fresh(p.codeSegments.Repr - old(p.codeSegments.Repr))
    ensures unchanged(still)
    ensures if done == [] then
        !ok && v == w && Seen(vm, p, v, own) == old(Seen(vm, p, w, own)) && !Removable(w, base, end, jit)
      else
        && ok && |done| == 1 && done[0].Unmapped? && done[0].Answers(vm.isa, jit, Unmap(base, end))
        && done[0].from == old(Seen(vm, p, w, own)) && done[0].to == Seen(vm, p, v, own)
  {
    ok := MayRemove(p, base, end, jit, w);
    if !ok { return false, w, []; }
    assert p.codeSegments.Repr == old(p.codeSegments.Repr);
    ghost var one;
    v, one := UnmapOne(vm, base, end, own, still, p, jit, w);
    done := [one];
  }

  /** Why a session ends early: its last slice failed, or the next event is refused. */
  ghost predicate Ends(isa: Isa, jit: Option<Jit>, p: Process, w: World, events: seq<Event>, done: seq<Done>)
    reads p`codeSegmentsByAddress, LastLeft(done)`ret, w.graph.Keys`ret
    reads if |done| < |events| && events[|done|].Take? then {events[|done|].turn.thread.time} else {}
  {
    || (done != [] && Broken(isa, jit, p, w, done[|done|-1]))
    || (|done| < |events| && Refused(events[|done|], w, jit))
  }

  /** `d` is a slice that failed. */
  ghost predicate Broken(isa: Isa, jit: Option<Jit>, p: Process, w: World, d: Done)
    reads p`codeSegmentsByAddress, LastLeft([d])`ret
  {
    d.Sliced? && !d.finished && d.slice.Failed(isa, jit, p, w)
  }

  ghost function LastLeft(done: seq<Done>): set<CodeSegment> {
    if done != [] && done[|done|-1].Sliced? && done[|done|-1].slice.from != null then {done[|done|-1].slice.from}
    else {}
  }

  /** While nothing was removed a session ends early only where a thread is astray, or before an event that
      is refused. */
  ghost predicate CalmlyEnds(isa: Isa, jit: Option<Jit>, p: Process, w: World, events: seq<Event>, done: seq<Done>)
    reads p`codeSegmentsByAddress, w.graph.Keys`ret
    reads if |done| < |events| && events[|done|].Take? then {events[|done|].turn.thread.time} else {}
  {
    || (done != [] && done[|done|-1].Sliced? && done[|done|-1].slice.run != []
        && Astray(isa, jit, p.codeSegmentsByAddress, w.pieces, done[|done|-1].slice.run[|done[|done|-1].slice.run|-1]))
    || (|done| < |events| && Refused(events[|done|], w, jit))
  }

  lemma CalmSessionEnds(isa: Isa, jit: Option<Jit>, p: Process, w: World, events: seq<Event>, done: seq<Done>)
    requires Ready(p, w, jit) && w.calm && Ends(isa, jit, p, w, events, done)
    ensures CalmlyEnds(isa, jit, p, w, events, done)
  {
    if done != [] && Broken(isa, jit, p, w, done[|done|-1]) {
      var slice := done[|done|-1].slice;
      CalmHalts(isa, jit, p, w, slice.from, slice.run);
    }
  }

  lemma NoParts(threads: set<VMThread>, p: Process, segments: set<CodeSegment>,
                intervals: set<IntervalValue<CodeSegment>>)
    ensures var parts := Parts(threads);
      p !in parts && p.codeSegments !in parts && parts !! segments && parts !! intervals
  {}

  /** Mapping beside threads, which stay as they are. */
  method MapBeside(vm: VM, base: u64, end: u64, ghost threads: set<VMThread>, p: Process, jit: Option<Jit>,
                   ghost w: World)
    returns (ok: bool, ghost v: World, ghost done: seq<Done>)
    requires Ready(p, w, jit) && base < end && Apart(threads)
    modifies p.codeSegments`values, p.codeSegments`Repr
    ensures Ready(p, v, jit) && v.owned == w.owned && v.calm == w.calm && Apart(threads)
    ensures fresh(p.codeSegments.Repr - old(p.codeSegments.Repr))
    ensures if done == [] then
        !ok && v == w && Now(vm, p, v, threads) == old(Now(vm, p, w, threads)) && Meets(w.pieces, base, end)
      else
        && ok && |done| == 1 && done[0].Mapped? && done[0].Answers(vm.isa, jit, Map(base, end))
        && done[0].from == old(Now(vm, p, w, threads)) && done[0].to == Now(vm, p, v, threads)
  {
    NoParts(threads, p, w.owned, p.codeSegments.Repr);
    ok, v, done := MapEvent(vm, base, end, Owns(threads), Parts(threads), p, jit, w);
  }

  method UnmapBeside(vm: VM, base: u64, end: u64, ghost threads: set<VMThread>, p: Process, jit: Option<Jit>,
                     ghost w: World)
    returns (ok: bool, ghost v: World, ghost done: seq<Done>)
    requires Ready(p, w, jit) && base <= end && Apart(threads)
    modifies p`codeSegmentsByAddress, p.codeSegments`values, p.codeSegments`Repr, p.codeSegments.Repr
    modifies w.owned`fixedInfo, w.owned`variableInfo, w.owned`successors, w.owned`predecessors, w.owned`jitBasicBlock
    ensures Ready(p, v, jit) && v.owned <= w.owned && fresh(p.codeSegments.Repr - old(p.codeSegments.Repr))
    ensures Apart(threads)
    ensures if done == [] then
        !ok && v == w && Now(vm, p, v, threads) == old(Now(vm, p, w, threads)) && !Removable(w, base, end, jit)
      else
        && ok && |done| == 1 && done[0].Unmapped? && done[0].Answers(vm.isa, jit, Unmap(base, end))
        && done[0].from == old(Now(vm, p, w, threads)) && done[0].to == Now(vm, p, v, threads)
  {
    NoParts(threads, p, w.owned, p.codeSegments.Repr);
    ok, v, done := UnmapEvent(vm, base, end, Owns(threads), Parts(threads), p, jit, w);
  }

  /** The next event of a session: it is answered, or refused and nothing changes. */
  method RunEvent(vm: VM, e: Event, ghost threads: set<VMThread>, p: Process, jit: Option<Jit>, queue: CompilationQueue,
                  ghost w: World)
    returns (ok: bool, ghost v: World, ghost done: seq<Done>)
    requires vm.isa.Sound() && Ready(p, w, jit) && vm.Idle() && Apart(threads)
    requires e.Possible(threads)
    modifies vm`cpu, vm`memory, vm`jitStack, vm`currentThread, queue, w.owned
    modifies if e.Take? then Parts({e.turn.thread}) else {}
    modifies p`codeSegmentsByAddress, p.codeSegments`values, p.codeSegments`Repr, p.codeSegments.Repr
    ensures Ready(p, v, jit) && vm.Idle() && Apart(threads) && (e.Unmap? || v.calm == w.calm)
    ensures fresh(v.owned - w.owned) && fresh(p.codeSegments.Repr - old(p.codeSegments.Repr))
    ensures if done == [] then !ok && Now(vm, p, v, threads) == old(Now(vm, p, w, threads)) && Refused(e, v, jit)
      else
        && |done| == 1 && done[0].Answers(vm.isa, jit, e)
        && done[0].from == old(Now(vm, p, w, threads)) && done[0].to == Now(vm, p, v, threads)
        && (ok || Broken(vm.isa, jit, p, v, done[0]))
  {
    match e {
      case Take(turn) => ok, v, done := TakeEvent(vm, turn, threads, p, jit, queue, w);
      case Map(base, end) => ok, v, done := MapBeside(vm, base, end, threads, p, jit, w);
      case Unmap(base, end) => ok, v, done := UnmapBeside(vm, base, end, threads, p, jit, w);
    }
  }

  /** How far a session has come: ready for the next event, or ended early. */
  ghost predicate Under(vm: VM, p: Process, jit: Option<Jit>, w: World, threads: set<VMThread>, start: Shared,
                        events: seq<Event>, done: seq<Done>, ok: bool)
    reads vm, p, p.codeSegments, p.codeSegments.Repr, w.graph.Keys, w.owned, LastLeft(done)`ret, Parts(threads)
    reads if |done| < |events| && events[|done|].Take? then {events[|done|].turn.thread.time} else {}
  {
    && Ready(p, w, jit) && vm.Idle() && Apart(threads)
    && Session(vm.isa, jit, start, events, done, Now(vm, p, w, threads))
    && (ok || Ends(vm.isa, jit, p, w, events, done))
  }

  lemma Extended(isa: Isa, jit: Option<Jit>, p: Process, w: World, start: Shared, events: seq<Event>, before: seq<Done>,
                 one: seq<Done>, ok: bool, was: Shared, now: Shared)
    requires |before| < |events| && Session(isa, jit, start, events, before, was)
    requires if one == [] then !ok && now == was && Refused(events[|before|], w, jit)
      else
        && |one| == 1 && one[0].Answers(isa, jit, events[|before|]) && one[0].from == was && one[0].to == now
        && (ok || Broken(isa, jit, p, w, one[0]))
    ensures Session(isa, jit, start, events, before + one, now)
    ensures if ok then |before + one| == |before| + 1 else Ends(isa, jit, p, w, events, before + one)
  {
    if one == [] {
      assert before + one == before;
    } else {
      assert one == [one[0]];
      SessionGoesOn(isa, jit, start, events, before, one[0]);
    }
  }

  lemma PartsInside(e: Event, threads: set<VMThread>)
    requires e.Possible(threads)
    ensures e.Take? ==> Parts({e.turn.thread}) <= Parts(threads)
  {}

  /** The next event, added to what was done before. */
  method RunNext(vm: VM, events: seq<Event>, k: nat, ghost threads: set<VMThread>, p: Process, jit: Option<Jit>,
                 queue: CompilationQueue, ghost w: World, ghost start: Shared, ghost before: seq<Done>)
    returns (ok: bool, ghost v: World, ghost done: seq<Done>, ghost news: set<CodeSegment>,
             ghost parts: set<IntervalValue<CodeSegment>>)
    requires vm.isa.Sound() && k == |before| < |events| && Under(vm, p, jit, w, threads, start, events, before, true)
    requires events[k].Possible(threads)
    modifies vm`cpu, vm`memory, vm`jitStack, vm`currentThread, queue, w.owned, Parts(threads)
    modifies p`codeSegmentsByAddress, p.codeSegments`values, p.codeSegments`Repr, p.codeSegments.Repr
    ensures Under(vm, p, jit, v, threads, start, events, done, ok) && (ok ==> |done| == |before| + 1)
    ensures events[k].Unmap? || v.calm == w.calm
    ensures v.owned <= w.owned + news && p.codeSegments.Repr <= old(p.codeSegments.Repr) + parts
    ensures fresh(news) && fresh(parts)
  {
    ghost var one, was := [], Now(vm, p, w, threads);
    PartsInside(events[k], threads);
    ok, v, one := RunEvent(vm, events[k], threads, p, jit, queue, w);
    news, parts := v.owned - w.owned, p.codeSegments.Repr - old(p.codeSegments.Repr);
    done := before + one;
    Extended(vm.isa, jit, p, v, start, events, before, one, ok, was, Now(vm, p, v, threads));
  }

  method RunEvents(vm: VM, events: seq<Event>, ghost threads: set<VMThread>, p: Process, jit: Option<Jit>,
                   queue: CompilationQueue, ghost w: World)
    returns (ok: bool, ghost v: World, ghost done: seq<Done>)
    requires vm.isa.Sound() && Ready(p, w, jit) && vm.Idle() && Apart(threads)
    requires forall e | e in events :: e.Possible(threads)
    modifies vm`cpu, vm`memory, vm`jitStack, vm`currentThread, Parts(threads), queue
    modifies p`codeSegmentsByAddress, p.codeSegments`values, p.codeSegments`Repr, p.codeSegments.Repr, w.owned
    ensures Under(vm, p, jit, v, threads, old(Now(vm, p, w, threads)), events, done, ok) && (ok ==> |done| == |events|)
    ensures w.calm && (forall e | e in events :: !e.Unmap?) ==> v.calm
  {
    ok, v, done := true, w, [];
    ghost var start, reprs := Now(vm, p, w, threads), p.codeSegments.Repr;
    NoParts(threads, p, w.owned, reprs);
    var k := 0;
    while ok && k < |events|
      invariant k <= |events| && Under(vm, p, jit, v, threads, start, events, done, ok) && (ok ==> |done| == k)
      invariant w.calm && (forall e | e in events :: !e.Unmap?) ==> v.calm
      invariant forall s | s in v.owned :: s in w.owned || fresh(s)
      invariant forall r | r in p.codeSegments.Repr :: r in reprs || fresh(r)
      invariant p.codeSegments == old(p.codeSegments)
    {
      ghost var u, news, parts := v, {}, {};
      assert events[k] in events;
      ok, v, done, news, parts := RunNext(vm, events, k, threads, p, jit, queue, u, start, done);
      k := k + 1;
    }
  }

  /** A session: whatever slices run and whatever regions appear and disappear between them, each event is
      answered where the one before it left off, and threads are isolated from one another. A removal is refused
      only when it is not removable, and without removals slices fail only where a thread is astray. */
  method RunSession(vm: VM, events: seq<Event>, ghost threads: set<VMThread>, p: Process, jit: Option<Jit>,
                    queue: CompilationQueue, ghost w: World)
    returns (ok: bool, ghost v: World, ghost done: seq<Done>)
    requires vm.isa.Sound() && Ready(p, w, jit) && vm.Idle() && Apart(threads)
    requires forall e | e in events :: e.Possible(threads)
    modifies vm`cpu, vm`memory, vm`jitStack, vm`currentThread, Parts(threads), queue
    modifies p`codeSegmentsByAddress, p.codeSegments`values, p.codeSegments`Repr, p.codeSegments.Repr, w.owned
    ensures Ready(p, v, jit) && vm.Idle() && Apart(threads)
    ensures Session(vm.isa, jit, old(Now(vm, p, w, threads)), events, done, Now(vm, p, v, threads))
    ensures Isolated(vm.isa, jit, old(Now(vm, p, w, threads)), events, done, Now(vm, p, v, threads))
    ensures if ok then |done| == |events| else Ends(vm.isa, jit, p, v, events, done)
    ensures w.calm && (forall e | e in events :: !e.Unmap?) ==>
      v.calm && (!ok ==> CalmlyEnds(vm.isa, jit, p, v, events, done))
  {
    ghost var start := Now(vm, p, w, threads);
    ok, v, done := RunEvents(vm, events, threads, p, jit, queue, w);
    SessionIsolated(vm.isa, jit, start, events, done, Now(vm, p, v, threads));
    if v.calm && !ok { CalmSessionEnds(vm.isa, jit, p, v, events, done); }
  }

  function Takes(turns: seq<Turn>): (events: seq<Event>)
    ensures |events| == |turns| && forall k | 0 <= k < |turns| :: events[k] == Take(turns[k])
  {
    seq(|turns|, k requires 0 <= k < |turns| => Take(turns[k]))
  }

  /** Slices of threads and nothing else, one after another. Whatever the order, each starts with what the last
      slice of its thread left, and each thread keeps what its last one left. */
  method RunSlices(vm: VM, turns: seq<Turn>, ghost threads: set<VMThread>, p: Process, jit: Option<Jit>,
                   queue: CompilationQueue, ghost w: World)
    returns (ok: bool, ghost v: World, ghost done: seq<Done>)
    requires vm.isa.Sound() && Ready(p, w, jit) && vm.Idle() && Apart(threads)
    requires forall turn | turn in turns :: turn.thread in threads
    modifies vm`cpu, vm`memory, vm`jitStack, vm`currentThread, Parts(threads), queue
    modifies p`codeSegmentsByAddress, p.codeSegments`values, p.codeSegments`Repr, p.codeSegments.Repr, w.owned
    ensures Ready(p, v, jit) && vm.Idle() && Apart(threads)
    ensures Session(vm.isa, jit, old(Now(vm, p, w, threads)), Takes(turns), done, Now(vm, p, v, threads))
    ensures Isolated(vm.isa, jit, old(Now(vm, p, w, threads)), Takes(turns), done, Now(vm, p, v, threads))
    ensures if ok then |done| == |turns| else Ends(vm.isa, jit, p, v, Takes(turns), done)
    ensures w.calm ==> v.calm && (!ok ==> CalmlyEnds(vm.isa, jit, p, v, Takes(turns), done))
    ensures forall d | d in done :: d.Sliced?
  {
    var events := Takes(turns);
    forall e | e in events ensures e.Possible(threads) && e.Take? {
      var k :| 0 <= k < |events| && events[k] == e;
      assert turns[k] in turns;
    }
    ghost var start := Now(vm, p, w, threads);
    ok, v, done := RunSession(vm, events, threads, p, jit, queue, w);
    AllSliced(vm.isa, jit, start, events, done, Now(vm, p, v, threads));
  }

  lemma {:induction false} AllSliced(isa: Isa, jit: Option<Jit>, start: Shared, events: seq<Event>, done: seq<Done>,
                                     end: Shared)
    requires Session(isa, jit, start, events, done, end) && forall e | e in events :: e.Take?
    ensures forall d | d in done :: d.Sliced?
  {
    if done != [] {
      var n := |done| - 1;
      AllSliced(isa, jit, start, events, done[..n], done[n].from);
      assert events[n] in events && done == done[..n] + [done[n]];
    }
  }

  /** A new process is ready for sessions. */
  method Boot(jit: Option<Jit>) returns (p: Process, ghost w: World)
    ensures fresh(p) && fresh(p.codeSegments) && p.codeSegments.Repr == {}
    ensures Ready(p, w, jit) && w == World({}, map[], [], jit.None?) && p.codeSegmentsByAddress == map[]
    ensures Housed(w.pieces, SegmentStart)
  {
    p := new Process();
    w := World({}, map[], [], jit.None?);
    assert p.codeSegmentsByAddress.Values == {};
  }

  ghost function All(threads: seq<VMThread>): set<VMThread> { set t | t in threads }

  lemma Joined(threads: set<VMThread>, t: VMThread)
    requires Apart(threads) && t.calls.Valid() && Parts(threads) !! {t, t.time, t.calls}
    ensures Apart(threads + {t}) && Parts(threads + {t}) == Parts(threads) + {t, t.time, t.calls}
  {
    forall s | s in threads ensures s.time != t.time && s.calls != t.calls && s != t {
      assert s.time in Parts(threads) && s.calls in Parts(threads) && s in Parts(threads);
    }
  }

  /** The threads are just beginning, each in its state of `starts`. */
  ghost predicate Started(own: map<VMThread, Own>, threads: seq<VMThread>, starts: seq<SavedCpuState>, profiling: bool)
    requires |threads| == |starts|
  {
    && own.Keys == All(threads)
    && forall i | 0 <= i < |threads| :: threads[i] in own && own[threads[i]] == NewOwn(starts[i], profiling)
  }

  /** New threads, each in its state of `starts`. */
  method Spawn(starts: seq<SavedCpuState>, profiling: bool) returns (threads: seq<VMThread>)
    ensures |threads| == |starts| && fresh(Parts(All(threads))) && Apart(All(threads)) && Distinct(threads)
    ensures Started(Owns(All(threads)), threads, starts, profiling)
  {
    threads := [];
    ghost var all, parts: set<object> := {}, {};
    for k := 0 to |starts|
      invariant |threads| == k && All(threads) == all && Apart(all) && Distinct(threads)
      invariant Parts(all) <= parts && fresh(parts)
      invariant Started(Owns(all), threads, starts[..k], profiling)
    {
      ghost var own, news := Owns(all), {};
      var t;
      t, news := SpawnOne(all, starts[k], profiling);
      Longer(threads, t);
      StartedLonger(own, threads, starts, k, profiling, t);
      threads, all, parts := threads + [t], all + {t}, parts + news;
    }
    assert starts[..|starts|] == starts;
  }

  lemma StartedLonger(own: map<VMThread, Own>, threads: seq<VMThread>, starts: seq<SavedCpuState>, k: nat,
                      profiling: bool, t: VMThread)
    requires |threads| == k < |starts| && Started(own, threads, starts[..k], profiling) && t !in own
    ensures Started(own[t := NewOwn(starts[k], profiling)], threads + [t], starts[..k+1], profiling)
  {
    Longer(threads, t);
  }

  predicate Distinct(threads: seq<VMThread>) {
    forall i, j | 0 <= i < j < |threads| :: threads[i] != threads[j]
  }

  lemma Longer(threads: seq<VMThread>, t: VMThread)
    ensures All(threads + [t]) == All(threads) + {t}
    ensures Distinct(threads) && t !in All(threads) ==> Distinct(threads + [t])
  {
    var longer := threads + [t];
    if Distinct(threads) && t !in All(threads) {
      forall i, j | 0 <= i < j < |longer| ensures longer[i] != longer[j] { assert longer[i] in threads; }
    }
  }

  /** A new thread beside others. */
  method SpawnOne(ghost threads: set<VMThread>, saved: SavedCpuState, profiling: bool)
    returns (t: VMThread, ghost news: set<object>)
    requires Apart(threads)
    ensures fresh(news) && t !in threads && Apart(threads + {t}) && Parts(threads + {t}) <= Parts(threads) + news
    ensures Owns(threads + {t}) == old(Owns(threads))[t := NewOwn(saved, profiling)]
  {
    t, news := NewThread(saved, profiling, Parts(threads));
    Joined(threads, t);
    OwnsMore(threads, t);
  }

  method NewThread(saved: SavedCpuState, profiling: bool, ghost still: set<object>)
    returns (t: VMThread, ghost news: set<object>)
    ensures unchanged(still) && news == {t, t.time, t.calls} && fresh(news) && news !! still
    ensures OwnOf(t) == NewOwn(saved, profiling) && t.calls.Valid()
  {
    t := new VMThread(profiling, saved);
    news := {t, t.time, t.calls};
  }

  lemma OwnsMore(threads: set<VMThread>, t: VMThread)
    ensures Owns(threads + {t}) == Owns(threads)[t := OwnOf(t)]
  {}

  ghost function NewOwn(saved: SavedCpuState, profiling: bool): Own {
    Own(saved, [], Clock(0, 0, 0), false, Recording(profiling, [], []))
  }

  /** No code is registered and no thread has run. */
  ghost predicate Begins(start: Shared, memory: Memory, threads: seq<VMThread>, starts: seq<SavedCpuState>,
                         profiling: bool)
    requires |threads| == |starts|
  {
    start == Shared(map[], [], memory, [], start.own) && Started(start.own, threads, starts, profiling)
  }

  /** What is to happen, with threads by number. */
  datatype Order =
    | Run(index: nat, current: nat, duration: nat)
    | Reserve(base: u64, end: u64)
    | Release(base: u64, end: u64)
  {
    ghost predicate Possible(n: nat) {
      match this
      case Run(index, _, _) => index < n
      case Reserve(base, end) => base < end
      case Release(base, end) => base <= end
    }

    function ToEvent(threads: seq<VMThread>): (e: Event)
      requires Possible(|threads|)
      ensures e.Take? <==> Run?
      ensures Run? ==>
        e.turn.thread == threads[index] && e.turn.current == current && e.turn.duration == duration
      ensures !Run? ==> e.base == base && e.end == end && (e.Map? <==> Reserve?)
    {
      match this
      case Run(index, current, duration) => Take(Turn(threads[index], current, duration))
      case Reserve(base, end) => Map(base, end)
      case Release(base, end) => Unmap(base, end)
    }
  }

  function ToEvents(orders: seq<Order>, threads: seq<VMThread>): (events: seq<Event>)
    requires forall o | o in orders :: o.Possible(|threads|)
    ensures |events| == |orders| && forall k | 0 <= k < |orders| :: events[k] == orders[k].ToEvent(threads)
  {
    seq(|orders|, k requires 0 <= k < |orders| => orders[k].ToEvent(threads))
  }

  lemma EventsPossible(orders: seq<Order>, threads: seq<VMThread>)
    requires forall o | o in orders :: o.Possible(|threads|)
    ensures forall e | e in ToEvents(orders, threads) :: e.Possible(All(threads))
  {
    var events := ToEvents(orders, threads);
    forall e | e in events ensures e.Possible(All(threads)) {
      var k :| 0 <= k < |events| && events[k] == e;
      assert orders[k] in orders;
    }
  }

  /** A new machine, process and threads, between slices and with no code registered. */
  method Assemble(isa: Isa, memory: Memory, jit: Option<Jit>, starts: seq<SavedCpuState>, profiling: bool)
    returns (vm: VM, p: Process, threads: seq<VMThread>, queue: CompilationQueue, ghost w: World)
    ensures fresh(vm) && fresh(p) && fresh(p.codeSegments) && p.codeSegments.Repr == {} && fresh(queue)
    ensures vm.isa == isa && vm.Idle() && Ready(p, w, jit) && w == World({}, map[], [], jit.None?)
    ensures |threads| == |starts| && fresh(Parts(All(threads))) && Apart(All(threads)) && Distinct(threads)
    ensures Begins(Now(vm, p, w, All(threads)), memory, threads, starts, profiling)
  {
    threads := Spawn(starts, profiling);
    p, w := Boot(jit);
    vm := new VM(isa, memory);
    queue := new CompilationQueue();
  }

  /** A whole run of the emulator from nothing, on any sound instruction set: a new machine, process and threads,
      and a session of theirs that begins with no code registered. */
  method Emulate(isa: Isa, memory: Memory, jit: Option<Jit>, starts: seq<SavedCpuState>, profiling: bool,
                 orders: seq<Order>)
    returns (vm: VM, p: Process, threads: seq<VMThread>, ok: bool, ghost v: World, ghost done: seq<Done>,
             ghost start: Shared)
    requires isa.Sound() && forall o | o in orders :: o.Possible(|starts|)
    ensures vm.isa == isa && vm.Idle() && Ready(p, v, jit) && |threads| == |starts| && Distinct(threads)
    ensures Begins(start, memory, threads, starts, profiling)
    ensures var events, end := ToEvents(orders, threads), Now(vm, p, v, All(threads));
      && Session(isa, jit, start, events, done, end) && Isolated(isa, jit, start, events, done, end)
      && if ok then |done| == |orders| else Ends(isa, jit, p, v, events, done)
  {
    var queue;
    ghost var w;
    vm, p, threads, queue, w := Assemble(isa, memory, jit, starts, profiling);
    start := Now(vm, p, w, All(threads));
    EventsPossible(orders, threads);
    ok, v, done := RunSession(vm, ToEvents(orders, threads), All(threads), p, jit, queue, w);
  }
}
