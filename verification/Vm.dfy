/** The virtual machine (emulator/src/emulator/vm.cpp): context switches and the dispatch loop. */
module VirtualMachine {
  import opened Types
  import opened CodeSegments
  import opened IntervalLaws
  import opened IntervalVectors
  import opened Processes
  import opened Dispatch
  import opened Upkeep
  import opened Machine
  import opened VmThreads
  import opened Interpreter

  ghost function Left(from: CodeSegment?): Option<BasicBlock> {
    if from == null then None else Some(from.block)
  }

  /** No segment is to be had for the block at the instruction pointer, or it would return with nothing on the
      call stack. */
  ghost predicate Astray(isa: Isa, jit: Option<Jit>, registry: map<u64, CodeSegment>,
                         pieces: seq<Piece<CodeSegment>>, now: Image) {
    var rip := now.core.cpu.regs.rip;
    || Lost(registry, pieces, rip, isa.disassemble(now.core.memory, rip))
    || (now.Fetched() && now.core.Underflows(isa, jit, now.Block()))
  }

  /** Why `run` ended before its time: its last image is astray, or the loop halts as it leaves `from`,
      the block that was run last. */
  ghost predicate Halted(isa: Isa, jit: Option<Jit>, p: Process, w: World, from: CodeSegment?, run: seq<Image>)
    requires run != []
    reads p`codeSegmentsByAddress, (if from == null then {} else {from})`ret
  {
    var last := run[|run|-1];
    var rip, memory := last.core.cpu.regs.rip, last.core.memory;
    if from == null then Astray(isa, jit, p.codeSegmentsByAddress, w.pieces, last)
    else
      && Halts(p, w, jit, from, rip, isa.disassemble(memory, rip), isa.disassemble(memory, from.block.end))
      && |run| > 1 && Leaves(isa, jit, run[|run|-2], last.core, from.block)
  }

  /** While nothing was removed a run ends early only astray. */
  lemma CalmHalts(isa: Isa, jit: Option<Jit>, p: Process, w: World, from: CodeSegment?, run: seq<Image>)
    requires Ready(p, w, jit) && w.calm && run != [] && Halted(isa, jit, p, w, from, run)
    ensures Astray(isa, jit, p.codeSegmentsByAddress, w.pieces, run[|run|-1])
  {}

  /** What running the block at the instruction pointer of `a` does, before the next one is found. */
  ghost predicate Segmented(isa: Isa, jit: Option<Jit>, a: Image, core: Core, ok: bool, waits: bool, left: BasicBlock) {
    && a.Fetched()
    && if !ok then core == a.core && a.core.Underflows(isa, jit, a.Block())
       else if waits then IsTurn(isa, jit, a, a.(core := core))
       else Leaves(isa, jit, a, core, left)
  }

  lemma InterpretedIs(isa: Isa, jit: Option<Jit>, a: Image, core: Core, ok: bool, waits: bool)
    requires a.Fetched() && waits == a.core.MustWait(isa, a.Block()) && ok == !a.core.Underflows(isa, jit, a.Block())
    requires core == if ok then a.core.Ran(isa, jit, a.Block()) else a.core
    ensures Segmented(isa, jit, a, core, ok, waits, a.Block())
  {}

  /** What a turn does from image `a` to `b`: a turn of the plain loop or, failing, nothing because the block
      cannot run, or all of a turn up to what is fetched after `left`. */
  ghost predicate Turned(isa: Isa, jit: Option<Jit>, a: Image, b: Image, ok: bool, left: Option<BasicBlock>) {
    && a.Fetched()
    && if ok then left.None? && IsTurn(isa, jit, a, b)
       else if left.None? then b == a && a.core.Underflows(isa, jit, a.Block())
       else Leaves(isa, jit, a, b.core, left.value) && IsTurn(isa, jit, a, b.Link(isa, jit, left.value))
  }

  class VM {
    const isa: Isa
    var cpu: CpuState
    var memory: Memory
    /** The compiler's call stack. */
    var jitStack: JitStack
    var currentThread: VMThread?

    constructor (isa: Isa, memory: Memory)
      ensures this.isa == isa && this.memory == memory
      ensures cpu == INITIAL_STATE && jitStack == [] && currentThread == null
    {
      this.isa, this.memory := isa, memory;
      cpu, jitStack, currentThread := INITIAL_STATE, [], null;
    }

    ghost function Current(): set<VMThread>
      reads this
    {
      if currentThread == null then {} else {currentThread}
    }

    /** The call stack that is saved to a thread that had `before`. */
    ghost function SavedStack(jit: Option<Jit>, before: JitStack): JitStack
      reads this`jitStack
    {
      if jit.Some? then jitStack else before
    }

    /** Saves the processor and the compiler's call stack to the current thread, if there is one. */
    method SyncThread(jit: Option<Jit>)
      modifies Current()`savedCpuState, Current()`savedJitStack
      ensures forall t | t in Current() ::
        t.savedCpuState == Save(cpu) && t.savedJitStack == SavedStack(jit, old(t.savedJitStack))
      ensures forall t | t in Current() ::
        && t.savedCpuState.flags == cpu.flags && t.savedCpuState.regs == cpu.regs
        && t.savedCpuState.x87fpu == cpu.x87fpu && t.savedCpuState.mxcsr == cpu.mxcsr
        && t.savedCpuState.fsBase == cpu.segmentBase[FS]
        && t.savedJitStack == if jit.Some? then jitStack else old(t.savedJitStack)
    {
      if currentThread != null {
        currentThread.savedCpuState :=
          SavedCpuState(cpu.flags, cpu.regs, cpu.x87fpu, cpu.mxcsr, cpu.segmentBase[FS]);
        if jit.Some? { currentThread.savedJitStack := jitStack; }
      }
    }

    /** Saves to the current thread and loads the new one's state, or the initial state. Without a new thread the
        compiler's call stack stays. */
    method ContextSwitch(newThread: VMThread?, jit: Option<Jit>)
      modifies this`cpu, this`jitStack, this`currentThread, Current()`savedCpuState, Current()`savedJitStack
      ensures currentThread == newThread
      ensures forall t | t in old(Current()) ::
        t.savedCpuState == Save(old(cpu)) && t.savedJitStack == old(SavedStack(jit, t.savedJitStack))
      ensures cpu == if newThread == null then INITIAL_STATE else Install(old(cpu), newThread.savedCpuState)
      ensures jitStack == if newThread == null || jit.None? then old(jitStack) else newThread.savedJitStack
      ensures newThread != null ==>
        var saved := newThread.savedCpuState;
        && cpu.flags == saved.flags && cpu.regs == saved.regs && cpu.x87fpu == saved.x87fpu && cpu.mxcsr == saved.mxcsr
        && cpu.segmentBase == old(cpu).segmentBase[FS := saved.fsBase]
    {
      SyncThread(jit);
      if newThread != null {
        currentThread := newThread;
        var saved := newThread.savedCpuState;
        cpu := CpuState(saved.flags, saved.regs, saved.x87fpu, saved.mxcsr, cpu.segmentBase[FS := saved.fsBase]);
        if jit.Some? { jitStack := newThread.savedJitStack; }
      } else {
        currentThread := null;
        cpu := INITIAL_STATE;
      }
    }

    ghost function ToCore(thread: VMThread): Core
      reads this`cpu, this`memory, this`jitStack, thread`requestsAtomic, thread.time, thread.calls
    {
      Core(cpu, memory, thread.time.ToClock(), thread.requestsAtomic, thread.calls.ToRecording(), jitStack)
    }

    ghost function ToImage(p: Process, thread: VMThread): Image
      reads this`cpu, this`memory, this`jitStack, p`codeSegmentsByAddress
      reads thread`requestsAtomic, thread.time, thread.calls
    {
      Image(Blocks(p.codeSegmentsByAddress), ToCore(thread))
    }

    /** `seg` is the registered segment for the instruction pointer. */
    ghost predicate Dispatches(p: Process, seg: CodeSegment)
      reads this`cpu, p`codeSegmentsByAddress
    {
      cpu.regs.rip in p.codeSegmentsByAddress && p.codeSegmentsByAddress[cpu.regs.rip] == seg
    }

    /** Ready to run `seg`. */
    ghost predicate At(p: Process, w: World, jit: Option<Jit>, seg: CodeSegment)
      reads this`cpu, p, p.codeSegments, p.codeSegments.Repr, w.graph.Keys, w.owned
    {
      Ready(p, w, jit) && seg in w.graph && Dispatches(p, seg)
    }

    /** Lets the compilation queue visit the segment about to run. */
    method OnCall(p: Process, seg: CodeSegment, jit: Option<Jit>, queue: CompilationQueue, ghost w: World)
      returns (ghost v: World)
      requires Ready(p, w, jit) && seg in w.graph
      modifies queue, w.graph.Keys`callsForCompilation, w.graph.Keys`compilationAttempted, w.graph.Keys`jitBasicBlock
      modifies w.graph.Keys`visits, w.graph.Keys`attempts, w.graph.Keys`variableInfo
      ensures Ready(p, v, jit) && v == w.(graph := v.graph) && v.graph.Keys == w.graph.Keys
      ensures if jit.Some? then seg.ToHeat().Checked() else v == w
      ensures forall s | s in w.graph && s.compilationAttempted && !old(s.compilationAttempted) ::
        && s.fixedInfo.Shaped()
        && forall t: CodeSegment |
             t == s.fixedInfo.next[0] || t == s.fixedInfo.next[1] || t in s.variableInfo.next || t == s.ret ::
             t in w.graph && (t.compilationAttempted || t.visits > old(t.visits))
    {
      v := w;
      if jit.None? { return; }
      MadeIs(w.graph, jit.value);
      ghost var h := Process(seg, jit.value, queue, w.graph);
      MadeIs(h, jit.value);
      v := w.(graph := h);
    }

    /** The compilation queue's round, as far as the dispatch loop relies on it. */
    method Process(seg: CodeSegment, jit: Jit, queue: CompilationQueue, ghost g: Graph) returns (ghost h: Graph)
      requires seg in g && Pictured(g) && Linked(g) && AllWarm(g.Keys) && RetsInside(g.Keys) && MadeBy(g, jit)
      modifies queue, g.Keys`callsForCompilation, g.Keys`compilationAttempted, g.Keys`jitBasicBlock
      modifies g.Keys`visits, g.Keys`attempts, g.Keys`variableInfo
      ensures Pictured(h) && Evolved(g, h, jit.chaining) && AllWarm(g.Keys) && MadeBy(h, jit)
      ensures seg.ToHeat().Checked()
      ensures forall s | s in g && s.compilationAttempted && !old(s.compilationAttempted) ::
        && s.fixedInfo.Shaped()
        && forall t: CodeSegment |
             t == s.fixedInfo.next[0] || t == s.fixedInfo.next[1] || t in s.variableInfo.next || t == s.ret ::
             t in g && (t.compilationAttempted || t.visits > old(t.visits))
    {
      ghost var trail;
      h, trail := queue.Process(jit, seg, g);
      assert seg in trail;
    }

    /** Interprets `block`; the thread records its calls and returns or, if there is a compiler, that is told. */
    method Exec(thread: VMThread, block: BasicBlock, jit: Option<Jit>)
      requires isa.Sound() && thread.calls.Valid()
      requires !ToCore(thread).MustWait(isa, block) && !ToCore(thread).Underflows(isa, jit, block)
      modifies this`cpu, this`memory, this`jitStack, thread.time, thread.calls
      ensures thread.calls.Valid()
      ensures ToCore(thread) == old(ToCore(thread)).Ran(isa, jit, block) && block.Leads(cpu.regs.rip)
      ensures var e := old(isa.exec(block, cpu, memory));
        && cpu == e.cpu && memory == e.memory && thread.time.Ns() == old(thread.time.Ns()) + block.length
        && thread.time.instructionLimit ==
             if e.yielded then old(thread.time.nbInstructions) else old(thread.time.instructionLimit)
      ensures Executes(isa, jit, old(ToCore(thread)), block, ToCore(thread))
    {
      ghost var before := ToCore(thread);
      var e := isa.exec(block, cpu, memory);
      if jit.None? {
        thread.calls.Play(thread.time.Ns(), e.actions);
      } else {
        var told := NotifyAll(jitStack, e.actions);
        jitStack := told.value;
      }
      cpu, memory := e.cpu, e.memory;
      if e.yielded { thread.time.Yield(); }
      thread.time.Tick(block.length);
      RanExecutes(isa, jit, before, block);
    }

    /** Whether `block` would not return with nothing on the call stack. */
    method CanExec(thread: VMThread, block: BasicBlock, jit: Option<Jit>) returns (can: bool)
      requires !ToCore(thread).MustWait(isa, block)
      ensures can == !ToCore(thread).Underflows(isa, jit, block)
    {
      var actions := isa.exec(block, cpu, memory).actions;
      if jit.None? {
        can := thread.calls.CanPlay(thread.time.Ns(), actions);
      } else {
        var told := NotifyAll(jitStack, actions);
        can := told.Some?;
      }
    }

    /** Runs compiled code, which may chain through other blocks; `current` is the one it leaves from. */
    method RunNative(thread: VMThread, p: Process, seg: CodeSegment, code: JitBlock, ghost g: Graph)
      returns (current: CodeSegment)
      requires p.InStep(g) && seg in g
      modifies this`cpu, this`memory, this`jitStack, thread.time
      ensures current in g && ToCore(thread) == old(ToCore(thread)).RanNative(isa, code)
      ensures ExecutesNatively(isa, code, old(ToCore(thread)), ToCore(thread))
      ensures var last, registry := old(ToCore(thread)).DoneNative(isa, code).last, p.codeSegmentsByAddress;
        current == if last in registry then registry[last] else seg
    {
      var clock := Clock(thread.time.waitTime, thread.time.nbInstructions, thread.time.instructionLimit);
      var e := isa.native(code, cpu, memory, clock, jitStack);
      cpu, memory, jitStack := e.cpu, e.memory, e.stack;
      if e.yielded { thread.time.Yield(); }
      thread.time.Tick(e.ticks);
      current := if e.last in p.codeSegmentsByAddress then p.codeSegmentsByAddress[e.last] else seg;
      assert current != seg ==> current in p.codeSegmentsByAddress.Values;
    }

    /** Interprets `seg`, unless its block is atomic and must wait: then the slice ends instead. It fails, and
        does nothing, when the block would return with nothing on the call stack. */
    method Interpret(thread: VMThread, p: Process, seg: CodeSegment, jit: Option<Jit>, ghost w: World)
      returns (ok: bool, waits: bool)
      requires isa.Sound() && Ready(p, w, jit) && seg in w.graph && (jit.Some? ==> seg.ToHeat().Checked())
      requires thread.calls.Valid()
      modifies this`cpu, this`memory, this`jitStack, thread.time, thread.calls, thread`requestsAtomic
      modifies seg`calls, seg`coldCalls
      ensures Ready(p, w, jit) && thread.calls.Valid()
      ensures waits == old(ToCore(thread).MustWait(isa, seg.block))
      ensures ok == !old(ToCore(thread).Underflows(isa, jit, seg.block))
      ensures waits <==> isa.multiprocessing && seg.block.atomic && !old(thread.requestsAtomic)
      ensures ToCore(thread) == if ok then old(ToCore(thread)).Ran(isa, jit, seg.block) else old(ToCore(thread))
      ensures if waits then cpu == old(cpu) else ok ==> seg.block.Leads(cpu.regs.rip)
      ensures seg.calls == if ok && !waits then old(seg.calls) + 1 else old(seg.calls)
      ensures if waits then ok && Waits(isa, old(ToCore(thread)), seg.block, ToCore(thread))
        else ok ==> Executes(isa, jit, old(ToCore(thread)), seg.block, ToCore(thread))
    {
      ok, waits := true, isa.multiprocessing && seg.block.atomic && !thread.requestsAtomic;
      if waits {
        PutOff(thread, seg.block, p, jit, w);
        return;
      }
      ok := CanExec(thread, seg.block, jit);
      if ok { ExecSegment(thread, p, seg, jit, w); }
    }

    /** Asks for an atomic slice, which touches no segment. */
    method PutOff(thread: VMThread, ghost block: BasicBlock, ghost p: Process, ghost jit: Option<Jit>, ghost w: World)
      requires Ready(p, w, jit) && ToCore(thread).MustWait(isa, block)
      modifies thread.time, thread`requestsAtomic
      ensures Ready(p, w, jit) && Waits(isa, old(ToCore(thread)), block, ToCore(thread))
      ensures ToCore(thread) == old(ToCore(thread)).Ran(isa, jit, block)
    {
      NotASegment(thread, w.graph.Keys, p.codeSegments.Repr);
      thread.EnterAtomic();
    }

    method ExecSegment(thread: VMThread, p: Process, seg: CodeSegment, jit: Option<Jit>, ghost w: World)
      requires isa.Sound() && Ready(p, w, jit) && seg in w.graph && (jit.Some? ==> seg.ToHeat().Checked())
      requires thread.calls.Valid() && !ToCore(thread).MustWait(isa, seg.block)
      requires !ToCore(thread).Underflows(isa, jit, seg.block)
      modifies this`cpu, this`memory, this`jitStack, thread.time, thread.calls, seg`calls, seg`coldCalls
      ensures Ready(p, w, jit) && thread.calls.Valid()
      ensures ToCore(thread) == old(ToCore(thread)).Ran(isa, jit, seg.block) && seg.block.Leads(cpu.regs.rip)
      ensures Executes(isa, jit, old(ToCore(thread)), seg.block, ToCore(thread)) && seg.calls == old(seg.calls) + 1
    {
      CountCall(p, seg, jit, w);
      ExecBeside(thread, seg.block, jit, p, w);
    }

    /** Executing touches no segment. */
    method ExecBeside(thread: VMThread, block: BasicBlock, jit: Option<Jit>, ghost p: Process, ghost w: World)
      requires isa.Sound() && Ready(p, w, jit) && thread.calls.Valid()
      requires !ToCore(thread).MustWait(isa, block) && !ToCore(thread).Underflows(isa, jit, block)
      modifies this`cpu, this`memory, this`jitStack, thread.time, thread.calls
      ensures Ready(p, w, jit) && thread.calls.Valid()
      ensures ToCore(thread) == old(ToCore(thread)).Ran(isa, jit, block) && block.Leads(cpu.regs.rip)
      ensures Executes(isa, jit, old(ToCore(thread)), block, ToCore(thread))
    {
      Exec(thread, block, jit);
    }

    /** Native code touches no segment, and is what the compiler makes of the block. */
    method RunCompiled(thread: VMThread, p: Process, seg: CodeSegment, jit: Option<Jit>, ghost w: World)
      returns (current: CodeSegment)
      requires At(p, w, jit, seg) && seg.jitBasicBlock.Some? && thread.calls.Valid()
      modifies this`cpu, this`memory, this`jitStack, thread.time
      ensures Ready(p, w, jit) && current in w.graph && jit.Some? && !w.calm && thread.calls.Valid()
      ensures Segmented(isa, jit, old(ToImage(p, thread)), ToCore(thread), true, false, current.block)
      ensures ToCore(thread) == old(ToCore(thread)).RanNative(isa, old(seg.jitBasicBlock).value)
    {
      current := RunNative(thread, p, seg, seg.jitBasicBlock.value, w.graph);
    }

    /** Runs `seg`, natively if it is compiled; `current` is the segment control leaves from. */
    method RunSegment(thread: VMThread, p: Process, seg: CodeSegment, jit: Option<Jit>, ghost w: World)
      returns (current: CodeSegment, ok: bool, waits: bool)
      requires isa.Sound() && At(p, w, jit, seg) && (jit.Some? ==> seg.ToHeat().Checked()) && thread.calls.Valid()
      modifies this`cpu, this`memory, this`jitStack, thread.time, thread.calls, thread`requestsAtomic
      modifies seg`calls, seg`coldCalls
      ensures Ready(p, w, jit) && current in w.graph && thread.calls.Valid()
      ensures Segmented(isa, jit, old(ToImage(p, thread)), ToCore(thread), ok, waits, current.block)
      ensures ok && waits ==> cpu == old(cpu)
      ensures old(seg.jitBasicBlock).Some? ==>
        ToCore(thread) == old(ToCore(thread)).RanNative(isa, old(seg.jitBasicBlock).value)
      ensures old(seg.jitBasicBlock).None? ==>
        current == seg && seg.calls == old(seg.calls) + if ok && !waits then 1 else 0
      ensures w.calm && ok && !waits ==> current.block.Leads(cpu.regs.rip)
    {
      if seg.jitBasicBlock.Some? {
        current := RunCompiled(thread, p, seg, jit, w);
        ok, waits := true, false;
      } else {
        ok, waits := InterpretSegment(thread, p, seg, jit, w);
        current := seg;
      }
    }

    method InterpretSegment(thread: VMThread, p: Process, seg: CodeSegment, jit: Option<Jit>, ghost w: World)
      returns (ok: bool, waits: bool)
      requires isa.Sound() && At(p, w, jit, seg) && (jit.Some? ==> seg.ToHeat().Checked()) && thread.calls.Valid()
      modifies this`cpu, this`memory, this`jitStack, thread.time, thread.calls, thread`requestsAtomic
      modifies seg`calls, seg`coldCalls
      ensures Ready(p, w, jit) && seg in w.graph && thread.calls.Valid()
      ensures Segmented(isa, jit, old(ToImage(p, thread)), ToCore(thread), ok, waits, seg.block)
      ensures ok && waits ==> cpu == old(cpu)
      ensures ok && !waits ==> seg.block.Leads(cpu.regs.rip)
      ensures seg.calls == old(seg.calls) + if ok && !waits then 1 else 0
    {
      ghost var a := ToImage(p, thread);
      ok, waits := Interpret(thread, p, seg, jit, w);
      InterpretedIs(isa, jit, a, ToCore(thread), ok, waits);
    }

    /** One turn of the dispatch loop: runs the registered segment `seg` and finds the next one, which is
        again the registered one. It is a turn of the plain loop. It fails before the block runs, when that
        would return with nothing on the call stack, or after it, where the loop halts. */
    method Turn(thread: VMThread, p: Process, seg: CodeSegment, jit: Option<Jit>, queue: CompilationQueue,
                ghost w: World)
      returns (next: CodeSegment, ok: bool, ghost v: World, ghost news: set<CodeSegment>, ghost from: CodeSegment?)
      requires isa.Sound() && At(p, w, jit, seg) && thread.calls.Valid()
      modifies this`cpu, this`memory, this`jitStack, thread.time, thread.calls, thread`requestsAtomic, queue
      modifies p`codeSegmentsByAddress, p.codeSegments.Repr, w.graph.Keys
      ensures thread.calls.Valid() && if ok then At(p, v, jit, next) else Ready(p, v, jit)
      ensures v.graph.Keys <= w.graph.Keys + news && fresh(news) && Onward(w, v)
      ensures Turned(isa, jit, old(ToImage(p, thread)), ToImage(p, thread), ok, Left(from))
      ensures ok ==> (next == seg && cpu == old(cpu)) || exists s | s in v.graph :: Learned(v.graph, s, next)
      ensures !ok && from != null ==> var rip := cpu.regs.rip;
        Halts(p, v, jit, from, rip, isa.disassemble(memory, rip), isa.disassemble(memory, from.block.end))
    {
      assert seg.start() == cpu.regs.rip;
      ghost var a := ToImage(p, thread);
      var current, waits;
      current, ok, waits, v := Run(thread, p, seg, jit, queue, w);
      next, news, from := seg, {}, null;
      if !ok || waits { return; }
      ghost var ran, core := v, ToCore(thread);
      next, ok, v, news := FindNext(p, thread, current, jit, ran);
      LeavesTurn(isa, jit, a, core, current.block);
      if !ok { from := current; }
    }

    /** The first half of a turn. */
    method Run(thread: VMThread, p: Process, seg: CodeSegment, jit: Option<Jit>, queue: CompilationQueue,
               ghost w: World)
      returns (current: CodeSegment, ok: bool, waits: bool, ghost v: World)
      requires isa.Sound() && At(p, w, jit, seg) && thread.calls.Valid()
      modifies this`cpu, this`memory, this`jitStack, thread.time, thread.calls, thread`requestsAtomic
      modifies queue, w.graph.Keys
      ensures Ready(p, v, jit) && v == w.(graph := v.graph) && v.graph.Keys == w.graph.Keys && current in v.graph
      ensures thread.calls.Valid()
      ensures Segmented(isa, jit, old(ToImage(p, thread)), ToCore(thread), ok, waits, current.block)
      ensures !ok || waits ==> cpu == old(cpu)
      ensures w.calm && ok && !waits ==> current.block.Leads(cpu.regs.rip)
    {
      v := OnCall(p, seg, jit, queue, w);
      current, ok, waits := RunSegment(thread, p, seg, jit, v);
    }

    /** The second half: finds and links the segment for the instruction pointer. */
    method FindNext(p: Process, thread: VMThread, current: CodeSegment, jit: Option<Jit>, ghost w: World)
      returns (next: CodeSegment, ok: bool, ghost v: World, ghost news: set<CodeSegment>)
      requires isa.Sound() && Ready(p, w, jit) && current in w.graph && (w.calm ==> current.block.Leads(cpu.regs.rip))
      requires thread.calls.Valid()
      modifies p`codeSegmentsByAddress, p.codeSegments.Repr, w.graph.Keys
      ensures Ready(p, v, jit) && w.graph.Keys <= v.graph.Keys <= w.graph.Keys + news && fresh(news) && Onward(w, v)
      ensures thread.calls.Valid() && ToCore(thread) == old(ToCore(thread))
      ensures ok ==> next in v.graph && Dispatches(p, next) && Learned(v.graph, current, next)
      ensures ok && jit.Some? && jit.value.callChaining && current.block.Calls() ==> Noted(p, v.graph, current)
      ensures !ok ==> var rip := cpu.regs.rip;
        Halts(p, v, jit, current, rip, isa.disassemble(memory, rip), isa.disassemble(memory, current.block.end))
      ensures var all := old(ToImage(p, thread)).Link(isa, jit, current.block);
        ToImage(p, thread).Link(isa, jit, current.block) == all && (ok ==> ToImage(p, thread) == all)
    {
      NotASegment(thread, w.graph.Keys, p.codeSegments.Repr);
      ghost var before := ToImage(p, thread);
      var rip := cpu.regs.rip;
      var found;
      found, ok, v, news :=
        Follow(p, current, rip, isa.disassemble(memory, rip), isa.disassemble(memory, current.block.end), jit, w);
      next := if found == null then current else found;
      FollowedLinks(isa, jit, before, ToImage(p, thread), current.block, ok);
    }

    /** The first segment of a slice. */
    method FetchFirst(p: Process, thread: VMThread, jit: Option<Jit>, ghost w: World)
      returns (seg: CodeSegment?, ghost v: World, ghost run: seq<Image>, ghost news: set<CodeSegment>)
      requires isa.Sound() && Ready(p, w, jit) && thread.calls.Valid()
      modifies p`codeSegmentsByAddress, p.codeSegments.Repr
      ensures if seg != null then At(p, v, jit, seg) else Ready(p, v, jit)
      ensures v.graph.Keys == w.graph.Keys + news && fresh(news) && Onward(w, v) && thread.calls.Valid()
      ensures unchanged(p.codeSegments)
      ensures run == [old(ToImage(p, thread)).Fetch(isa)] && Lands(isa, jit, run, ToImage(p, thread), None)
      ensures seg == null ==> Halted(isa, jit, p, v, null, run)
    {
      run := [ToImage(p, thread).Fetch(isa)];
      var rip := cpu.regs.rip;
      var block := isa.disassemble(memory, rip);
      seg, v, news := FetchNew(p, rip, block, jit, w);
      if seg != null { ProvidedBlocks(old(p.codeSegmentsByAddress), rip, block, seg, p.codeSegmentsByAddress); }
      assert ToCore(thread) == old(ToCore(thread));
      LandsNow(isa, jit, ToImage(p, thread));
    }

    /** How far a slice has come that began with world `start` and the run `first`: about to run `seg`, or
        halted, perhaps as it left `from`. */
    ghost predicate Under(thread: VMThread, p: Process, jit: Option<Jit>, start: World, first: seq<Image>, w: World,
                          run: seq<Image>, ok: bool, seg: CodeSegment, from: CodeSegment?)
      reads this`cpu, this`memory, this`jitStack, thread`requestsAtomic, thread.time, thread.calls
      reads p, p.codeSegments, p.codeSegments.Repr
      reads w.graph.Keys, w.owned, (if from == null then {} else {from})`ret
    {
      && Onward(start, w) && first <= run && Lands(isa, jit, run, ToImage(p, thread), Left(from))
      && thread.calls.Valid()
      && if ok then At(p, w, jit, seg) && from == null else Ready(p, w, jit) && Halted(isa, jit, p, w, from, run)
    }

    /** A turn after those of `run`. */
    method Advance(thread: VMThread, p: Process, seg: CodeSegment, jit: Option<Jit>, queue: CompilationQueue,
                   ghost w: World, ghost run: seq<Image>, ghost start: World, ghost first: seq<Image>)
      returns (next: CodeSegment, ok: bool, ghost v: World, ghost news: set<CodeSegment>, ghost longer: seq<Image>,
               ghost from: CodeSegment?)
      requires isa.Sound() && Under(thread, p, jit, start, first, w, run, true, seg, null)
      requires !thread.time.ToClock().Stopped()
      modifies this`cpu, this`memory, this`jitStack, thread.time, thread.calls, thread`requestsAtomic, queue
      modifies p`codeSegmentsByAddress, p.codeSegments.Repr, w.graph.Keys
      ensures Under(thread, p, jit, start, first, v, longer, ok, next, from)
      ensures v.graph.Keys <= w.graph.Keys + news && fresh(news)
      ensures ok ==> thread.time.ToClock().Left() < old(thread.time.ToClock().Left())
    {
      ghost var before := ToImage(p, thread);
      next, ok, v, news, from := Turn(thread, p, seg, jit, queue, w);
      OnwardOn(start, w, v);
      longer := TurnLands(isa, jit, run, before, ToImage(p, thread), ok, Left(from));
    }

    /** Fetches the first segment, then runs the dispatch loop. It ends because every turn uses up
        instructions or ends the slice; it fails only where it halts. */
    method RunSlice(thread: VMThread, p: Process, jit: Option<Jit>, queue: CompilationQueue, ghost w: World)
      returns (ok: bool, ghost v: World, ghost run: seq<Image>, ghost from: CodeSegment?, ghost news: set<CodeSegment>,
               ghost more: set<CodeSegment>)
      requires isa.Sound() && Ready(p, w, jit) && thread.calls.Valid()
      modifies this`cpu, this`memory, this`jitStack, thread.time, thread.calls, thread`requestsAtomic, queue
      modifies p`codeSegmentsByAddress, p.codeSegments.Repr, w.graph.Keys
      ensures Ready(p, v, jit) && Onward(w, v) && thread.calls.Valid()
      ensures v.graph.Keys <= w.graph.Keys + news + more && fresh(news) && fresh(more)
      ensures [old(ToImage(p, thread)).Fetch(isa)] <= run && Lands(isa, jit, run, ToImage(p, thread), Left(from))
      ensures if ok then thread.time.ToClock().Stopped() && from == null else Halted(isa, jit, p, v, from, run)
    {
      var seg;
      seg, v, run, news := FetchFirst(p, thread, jit, w);
      ok, from, more := seg != null, null, {};
      if !ok { return; }
      ghost var u := v;
      seg, ok, v, run, from, more := Loop(thread, p, seg, jit, queue, u, run, w);
    }

    method Loop(thread: VMThread, p: Process, first: CodeSegment, jit: Option<Jit>, queue: CompilationQueue,
                ghost w: World, ghost run: seq<Image>, ghost start: World)
      returns (last: CodeSegment, ok: bool, ghost v: World, ghost longer: seq<Image>, ghost from: CodeSegment?,
               ghost news: set<CodeSegment>)
      requires isa.Sound() && Under(thread, p, jit, start, run, w, run, true, first, null)
      modifies this`cpu, this`memory, this`jitStack, thread.time, thread.calls, thread`requestsAtomic, queue
      modifies p`codeSegmentsByAddress, p.codeSegments.Repr, w.graph.Keys
      ensures Under(thread, p, jit, start, run, v, longer, ok, last, from)
      ensures v.graph.Keys <= w.graph.Keys + news && fresh(news) && (ok ==> thread.time.ToClock().Stopped())
    {
      last, ok, v, longer, from := first, true, w, run, null;
      NotASegment(thread, w.graph.Keys, p.codeSegments.Repr);
      while ok && !thread.time.IsStopAsked()
        invariant Under(thread, p, jit, start, run, v, longer, ok, last, from)
        invariant forall s | s in v.graph :: s in w.graph || fresh(s)
        decreases ok, thread.time.ToClock().Left()
      {
        ghost var u, more := v, {};
        last, ok, v, more, longer, from := Advance(thread, p, last, jit, queue, u, longer, start, run);
      }
      news := v.graph.Keys - w.graph.Keys;
    }

    /** Between slices no thread is current and the processor is in its initial state. */
    predicate Idle()
      reads this
    {
      currentThread == null && cpu == INITIAL_STATE
    }

    /** Switching threads touches no segment. */
    method Switch(newThread: VMThread?, ghost p: Process, jit: Option<Jit>, ghost w: World)
      requires Ready(p, w, jit)
      modifies this`cpu, this`jitStack, this`currentThread, Current()`savedCpuState, Current()`savedJitStack
      ensures Ready(p, w, jit) && currentThread == newThread && unchanged(p) && unchanged(w.graph.Keys)
      ensures forall t | t in old(Current()) ::
        t.savedCpuState == Save(old(cpu)) && t.savedJitStack == old(SavedStack(jit, t.savedJitStack))
      ensures cpu == if newThread == null then INITIAL_STATE else Install(old(cpu), newThread.savedCpuState)
      ensures jitStack == if newThread == null || jit.None? then old(jitStack) else newThread.savedJitStack
    {
      ContextSwitch(newThread, jit);
    }

    /** Saves the running thread, and leaves none current. */
    method Retire(thread: VMThread, ghost p: Process, jit: Option<Jit>, ghost w: World)
      requires Ready(p, w, jit) && currentThread == thread
      modifies this`cpu, this`jitStack, this`currentThread, thread`savedCpuState, thread`savedJitStack
      ensures Ready(p, w, jit) && Idle() && unchanged(p) && unchanged(w.graph.Keys)
      ensures thread.savedCpuState == Save(old(cpu))
      ensures thread.savedJitStack == old(SavedStack(jit, thread.savedJitStack))
      ensures ToImage(p, thread) == old(ToImage(p, thread)).With(INITIAL_STATE)
    {
      Switch(null, p, jit, w);
    }

    /** Installs the state of the thread about to run. */
    method Enter(thread: VMThread, ghost p: Process, jit: Option<Jit>, ghost w: World) returns (ghost first: Image)
      requires Ready(p, w, jit) && Idle()
      modifies this`cpu, this`jitStack, this`currentThread
      ensures Ready(p, w, jit) && currentThread == thread
      ensures first == ToImage(p, thread)
      ensures first == old(ToImage(p, thread).Entered(jit, thread.savedCpuState, thread.savedJitStack))
    {
      Switch(thread, p, jit, w);
      first := ToImage(p, thread);
    }

    /** A slice of `thread` with its state installed, not yet saved: from `first` to `last`. */
    method RunInstalled(thread: VMThread, p: Process, jit: Option<Jit>, queue: CompilationQueue, ghost w: World)
      returns (ok: bool, ghost v: World, ghost run: seq<Image>, ghost first: Image, ghost last: Image,
               ghost from: CodeSegment?, ghost news: set<CodeSegment>, ghost more: set<CodeSegment>)
      requires isa.Sound() && Ready(p, w, jit) && Idle() && thread.calls.Valid()
      modifies this`cpu, this`memory, this`jitStack, this`currentThread
      modifies thread.time, thread.calls, thread`requestsAtomic, queue
      modifies p`codeSegmentsByAddress, p.codeSegments.Repr, w.graph.Keys
      ensures Ready(p, v, jit) && Onward(w, v) && currentThread == thread && thread.calls.Valid()
      ensures v.graph.Keys <= w.graph.Keys + news + more && fresh(news) && fresh(more)
      ensures first == old(ToImage(p, thread).Entered(jit, thread.savedCpuState, thread.savedJitStack))
      ensures last == ToImage(p, thread)
      ensures [first.Fetch(isa)] <= run && Lands(isa, jit, run, last, Left(from))
      ensures if ok then thread.time.ToClock().Stopped() && from == null else Halted(isa, jit, p, v, from, run)
    {
      first := Enter(thread, p, jit, w);
      ok, v, run, from, news, more := RunSlice(thread, p, jit, queue, w);
      last := ToImage(p, thread);
    }

    /** A slice of `thread`: it starts with the state it was saved with, runs until it must stop, and is
        saved. Its run is one of the plain loop. It fails only where it halts and, while nothing was removed,
        only when it is astray. */
    method Execute(thread: VMThread, p: Process, jit: Option<Jit>, queue: CompilationQueue, ghost w: World)
      returns (ok: bool, ghost v: World, ghost slice: Slice, ghost news: set<CodeSegment>, ghost more: set<CodeSegment>)
      requires isa.Sound() && Ready(p, w, jit) && Idle() && thread.calls.Valid()
      modifies this`cpu, this`memory, this`jitStack, this`currentThread, thread`savedCpuState, thread`savedJitStack
      modifies thread.time, thread.calls, thread`requestsAtomic, queue
      modifies p`codeSegmentsByAddress, p.codeSegments.Repr, w.graph.Keys
      ensures Ready(p, v, jit) && Idle() && Onward(w, v) && thread.calls.Valid()
      ensures v.graph.Keys <= w.graph.Keys + news + more && fresh(news) && fresh(more)
      ensures slice.thread == thread && slice.began == old(thread.savedCpuState) && slice.ended == thread.savedCpuState
      ensures slice.stack == old(thread.savedJitStack)
      ensures thread.savedJitStack == if jit.Some? then jitStack else old(thread.savedJitStack)
      ensures slice.Plain(isa, jit, old(ToImage(p, thread)), ToImage(p, thread))
      ensures if ok then thread.time.ToClock().Stopped() && slice.from == null else slice.Failed(isa, jit, p, v)
      ensures !ok && v.calm ==> Astray(isa, jit, p.codeSegmentsByAddress, v.pieces, slice.run[|slice.run|-1])
    {
      ghost var began, stack, before := thread.savedCpuState, thread.savedJitStack, ToImage(p, thread);
      ghost var run, first, last, from;
      ok, v, run, first, last, from, news, more := RunInstalled(thread, p, jit, queue, w);
      Retire(thread, p, jit, v);
      slice := Slice(thread, began, stack, run, thread.savedCpuState, from);
      SliceIsPlain(isa, jit, slice, before, first, last, ToImage(p, thread));
      if !ok && v.calm { CalmHalts(isa, jit, p, v, from, run); }
    }
  }

  lemma FollowedLinks(isa: Isa, jit: Option<Jit>, before: Image, after: Image, left: BasicBlock, ok: bool)
    requires after.core == before.core
    requires var rip, memory := before.core.cpu.regs.rip, before.core.memory;
      Followed(before.blocks, jit, left, rip, isa.disassemble(memory, rip), isa.disassemble(memory, left.end), ok,
               after.blocks)
    ensures after.Link(isa, jit, left) == before.Link(isa, jit, left)
    ensures ok ==> after == before.Link(isa, jit, left)
  {}

  lemma NotASegment(thread: VMThread, segments: set<CodeSegment>, intervals: set<IntervalValue<CodeSegment>>)
    ensures {thread, thread.time, thread.calls} !! segments && {thread, thread.time, thread.calls} !! intervals
  {}

  /** A slice that was run: the thread's saved state before and after, the call stack of the compiler it was saved
      with, its run and, if it halted there, the segment it left last. */
  datatype Slice = Slice(thread: VMThread, began: SavedCpuState, stack: JitStack, run: seq<Image>,
                         ended: SavedCpuState, from: CodeSegment?)
  {
    /** The loop halted where the slice ended. */
    ghost predicate Failed(isa: Isa, jit: Option<Jit>, p: Process, w: World)
      reads p`codeSegmentsByAddress, (if from == null then {} else {from})`ret
    {
      run != [] && Halted(isa, jit, p, w, from, run)
    }

    /** Its run is one of the plain loop, from the saved state to the new saved state, and `before` and `after`
        are the images around it, up to the processor and the last fetch. */
    ghost predicate Plain(isa: Isa, jit: Option<Jit>, before: Image, after: Image) {
      && IsRun(isa, jit, run)
      && run[0] == before.Entered(jit, began, stack).Fetch(isa)
      && ended == Save(run[|run|-1].core.cpu)
      && Lands(isa, jit, run, after.With(run[|run|-1].core.cpu), Left(from))
    }
  }

  /** A scheduling decision: which thread runs, from when on and for how long. */
  datatype Turn = Turn(thread: VMThread, current: nat, duration: nat)

  /** The thread's own time is past the time it is to run from. */
  ghost predicate Late(turn: Turn)
    reads turn.thread.time
  {
    turn.current < turn.thread.time.Ns()
  }

  lemma SliceIsPlain(isa: Isa, jit: Option<Jit>, slice: Slice, before: Image, first: Image, last: Image, after: Image)
    requires first == before.Entered(jit, slice.began, slice.stack) && slice.ended == Save(last.core.cpu)
    requires [first.Fetch(isa)] <= slice.run && Lands(isa, jit, slice.run, last, Left(slice.from))
    requires after == last.With(after.core.cpu)
    ensures slice.Plain(isa, jit, before, after)
  {
    assert slice.run[0] == first.Fetch(isa);
    assert last.core == slice.run[|slice.run|-1].core;
    assert after.With(last.core.cpu) == last;
  }

  /** The run after a turn. */
  lemma TurnLands(isa: Isa, jit: Option<Jit>, run: seq<Image>, before: Image, after: Image, ok: bool,
                  left: Option<BasicBlock>) returns (longer: seq<Image>)
    requires Lands(isa, jit, run, before, None) && !before.core.time.Stopped()
    requires Turned(isa, jit, before, after, ok, left) && (ok ==> after.Fetched()) && isa.Sound()
    ensures run <= longer && Lands(isa, jit, longer, after, left)
    ensures ok ==> after.core.time.Left() < before.core.time.Left()
    ensures longer[|longer|-1].core == after.core
    ensures !ok && left.None? ==> longer == run && after.core.Underflows(isa, jit, after.Block())
    ensures left.Some? ==> |longer| > 1 && longer[|longer|-2] == before
  {
    longer := run;
    if ok || left.Some? {
      var next := if ok then after else after.Link(isa, jit, left.value);
      LandsOn(isa, jit, run, before, after, left, next);
      longer := run + [next];
      if ok { TurnAdvances(isa, jit, before, after); }
    }
  }
}
