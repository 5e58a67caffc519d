/** The plain meaning of running a thread for a slice: no caches, no heap, every block fetched by the
    instruction pointer. The dispatch loop is measured against this. */
module Interpreter {
  import opened Types
  import opened CodeSegments
  import opened Processes
  import opened Dispatch
  import opened Machine
  import opened VmThreads

  /** What running a block does: the new processor state and memory, whether the thread yields, and what
      happens to its call stack. */
  datatype Effect = Effect(cpu: CpuState, memory: Memory, yielded: bool, actions: seq<Action>)

  /** What natively compiled code does: it may run through several blocks, changes the compiler's call stack as
      it likes, and leaves from the block at `last`. */
  datatype NativeEffect = NativeEffect(cpu: CpuState, memory: Memory, ticks: nat, yielded: bool, last: u64,
                                       stack: JitStack)

  /** The instruction set is opaque: how a block is disassembled, if there is one, what it does, and what
      its compiled code does at a given time. `multiprocessing` tells how the emulator is built. */
  datatype Isa = Isa(disassemble: (Memory, u64) -> Option<BasicBlock>, exec: (BasicBlock, CpuState, Memory) -> Effect,
                     native: (JitBlock, CpuState, Memory, Clock, JitStack) -> NativeEffect, multiprocessing: bool)
  {
    /** Blocks start where they are disassembled, and lead where their last instruction says; only the last
        instruction of a block calls; compiled code takes time. */
    ghost predicate Sound() {
      && (forall m, a :: StartsAt(disassemble(m, a), a))
      && (forall b, cpu, m :: NoEarlyCall(exec(b, cpu, m).actions) && b.Leads(exec(b, cpu, m).cpu.regs.rip))
      && (forall j, cpu, m, c, st :: native(j, cpu, m, c, st).ticks > 0)
    }
  }

  ghost predicate NoEarlyCall(actions: seq<Action>) {
    forall i | 0 <= i < |actions| :: !actions[i].Pass? && (actions[i].Call? ==> i == |actions| - 1)
  }

  /** Some instruction set is sound: one-byte blocks everywhere but at the last address, which do nothing but
      go on. */
  lemma SoundIsaExists() returns (isa: Isa)
    ensures isa.Sound()
  {
    var goOn := (b: BasicBlock, cpu: CpuState, m: Memory) =>
      Effect(cpu.(regs := cpu.regs.(rip := b.end)), m, false, []);
    var wait := (j: JitBlock, cpu: CpuState, m: Memory, c: Clock, st: JitStack) =>
      NativeEffect(cpu, m, 1, false, 0, st);
    isa := Isa((m: Memory, a: u64) => ByteAt(a), goOn, wait, true);
  }

  function ByteAt(a: u64): Option<BasicBlock> {
    if a + 1 < TWO_TO_THE_64 then Some(Block(a, a + 1, 1, false, false, false, 0, false, 0)) else None
  }

  /** The processor, the memory, the running thread's clock, request for an atomic slice and recorded calls, and
      the compiler's call stack. */
  datatype Core = Core(cpu: CpuState, memory: Memory, time: Clock, atomic: bool, calls: Recording, jitStack: JitStack) {
    /** Atomic blocks wait for a slice of their own in multiprocessing builds. */
    predicate MustWait(isa: Isa, block: BasicBlock) {
      isa.multiprocessing && block.atomic && !atomic
    }

    ghost function Recorder(): Recorder { calls.At(time.Ns()) }

    ghost function Done(isa: Isa, block: BasicBlock): Effect {
      isa.exec(block, cpu, memory)
    }

    /** What is recorded once `block` has run; with a compiler the thread records nothing. */
    ghost function Played(isa: Isa, jit: Option<Jit>, block: BasicBlock): Option<Recording> {
      if jit.Some? then Some(calls) else calls.Played(time.Ns(), Done(isa, block).actions)
    }

    /** What the compiler has on its call stack then. */
    ghost function Told(isa: Isa, jit: Option<Jit>, block: BasicBlock): Option<JitStack> {
      if jit.Some? then NotifiedAll(jitStack, Done(isa, block).actions) else Some(jitStack)
    }

    /** Running `block` would return with nothing on the call stack. */
    ghost predicate Underflows(isa: Isa, jit: Option<Jit>, block: BasicBlock) {
      !MustWait(isa, block) && (Played(isa, jit, block).None? || Told(isa, jit, block).None?)
    }

    /** After `block` has been interpreted, or has been put off. */
    ghost function Ran(isa: Isa, jit: Option<Jit>, block: BasicBlock): Core
      requires !Underflows(isa, jit, block)
    {
      if MustWait(isa, block) then this.(time := time.Yielded(), atomic := true)
      else
        var e := Done(isa, block);
        Core(e.cpu, e.memory, (if e.yielded then time.Yielded() else time).Ticked(block.length), atomic,
             Played(isa, jit, block).value, Told(isa, jit, block).value)
    }

    ghost function DoneNative(isa: Isa, code: JitBlock): NativeEffect {
      isa.native(code, cpu, memory, time, jitStack)
    }

    /** After compiled code has run. */
    ghost function RanNative(isa: Isa, code: JitBlock): Core {
      var e := DoneNative(isa, code);
      Core(e.cpu, e.memory, (if e.yielded then time.Yielded() else time).Ticked(e.ticks), atomic, calls, e.stack)
    }
  }

  /** All that a slice of a thread depends on and changes. */
  datatype Image = Image(blocks: map<u64, BasicBlock>, core: Core) {
    ghost predicate Fetched() { core.cpu.regs.rip in blocks }

    ghost function Block(): BasicBlock
      requires Fetched()
    {
      blocks[core.cpu.regs.rip]
    }

    ghost function With(cpu: CpuState): Image {
      this.(core := core.(cpu := cpu))
    }

    /** With a thread's saved state installed, the compiler's call stack included if there is a compiler. */
    ghost function Entered(jit: Option<Jit>, saved: SavedCpuState, stack: JitStack): Image {
      this.(core := core.(cpu := Install(INITIAL_STATE, saved), jitStack := if jit.Some? then stack else core.jitStack))
    }

    /** With the block at the instruction pointer in the registry, if there is one. */
    ghost function Fetch(isa: Isa): Image {
      var rip := core.cpu.regs.rip;
      this.(blocks := WithBlock(blocks, rip, isa.disassemble(core.memory, rip)))
    }

    /** With everything in the registry that following control out of `left` fetches. */
    ghost function Link(isa: Isa, jit: Option<Jit>, left: BasicBlock): Image {
      var rip := core.cpu.regs.rip;
      this.(blocks := LinkedBlocks(blocks, jit, left, rip, isa.disassemble(core.memory, rip),
                                   isa.disassemble(core.memory, left.end)))
    }

    ghost predicate CanRun(isa: Isa, jit: Option<Jit>) {
      Fetched() && !core.Underflows(isa, jit, Block())
    }

    /** Interprets the block at the instruction pointer and, unless it must wait, fetches the next one. */
    ghost function Interpreted(isa: Isa, jit: Option<Jit>): Image
      requires CanRun(isa, jit)
    {
      var ran := this.(core := core.Ran(isa, jit, Block()));
      if core.MustWait(isa, Block()) then ran else ran.Link(isa, jit, Block())
    }

    /** The block at the instruction pointer compiles to something. */
    ghost predicate Compiles(jit: Option<Jit>) {
      Fetched() && jit.Some? && jit.value.compile(Block()).Some?
    }

    /** The block that compiled code leaves from. */
    ghost function LeftNative(isa: Isa, jit: Option<Jit>): BasicBlock
      requires Compiles(jit)
    {
      var last := core.DoneNative(isa, jit.value.compile(Block()).value).last;
      if last in blocks then blocks[last] else Block()
    }

    /** Runs the compiled code of the block at the instruction pointer and fetches the next one. */
    ghost function Native(isa: Isa, jit: Option<Jit>): Image
      requires Compiles(jit)
    {
      this.(core := core.RanNative(isa, jit.value.compile(Block()).value)).Link(isa, jit, LeftNative(isa, jit))
    }
  }

  /** One turn of the plain loop. With a compiler a block that compiles may run either way. */
  ghost predicate IsTurn(isa: Isa, jit: Option<Jit>, a: Image, b: Image) {
    || (a.CanRun(isa, jit) && b == a.Interpreted(isa, jit))
    || (a.Compiles(jit) && b == a.Native(isa, jit))
  }

  /** Control left block `left` for where `core` is, once the block at the instruction pointer of `a` had run. */
  ghost predicate Leaves(isa: Isa, jit: Option<Jit>, a: Image, core: Core, left: BasicBlock) {
    || (a.CanRun(isa, jit) && !a.core.MustWait(isa, a.Block()) && core == a.core.Ran(isa, jit, a.Block())
        && left == a.Block())
    || (a.Compiles(jit) && core == a.core.RanNative(isa, jit.value.compile(a.Block()).value)
        && left == a.LeftNative(isa, jit))
  }

  lemma LeavesTurn(isa: Isa, jit: Option<Jit>, a: Image, core: Core, left: BasicBlock)
    requires Leaves(isa, jit, a, core, left)
    ensures IsTurn(isa, jit, a, a.(core := core).Link(isa, jit, left))
  {}

  /** A run of the plain loop: one image before each block and one after the last, every block but the last
      image's started before the slice was over. */
  ghost predicate IsRun(isa: Isa, jit: Option<Jit>, run: seq<Image>) {
    run != [] && forall k {:trigger TurnAt(isa, jit, run, k)} | 0 <= k < |run| - 1 :: TurnAt(isa, jit, run, k)
  }

  ghost predicate TurnAt(isa: Isa, jit: Option<Jit>, run: seq<Image>, k: nat)
    requires k < |run| - 1
  {
    !run[k].core.time.Stopped() && IsTurn(isa, jit, run[k], run[k+1])
  }

  /** `now` is where `run` leads, up to what is fetched next or, once control left block `left`, after it. */
  ghost predicate Lands(isa: Isa, jit: Option<Jit>, run: seq<Image>, now: Image, left: Option<BasicBlock>) {
    && IsRun(isa, jit, run)
    && run[|run|-1] == if left.None? then now.Fetch(isa) else now.Link(isa, jit, left.value)
  }

  lemma LandsNow(isa: Isa, jit: Option<Jit>, now: Image)
    ensures Lands(isa, jit, [now.Fetch(isa)], now, None)
  {}

  lemma LandsOn(isa: Isa, jit: Option<Jit>, run: seq<Image>, before: Image, after: Image, left: Option<BasicBlock>,
                next: Image)
    requires before.Fetched() && Lands(isa, jit, run, before, None)
    requires !before.core.time.Stopped() && IsTurn(isa, jit, before, next)
    requires next == if left.None? then after.Fetch(isa) else after.Link(isa, jit, left.value)
    ensures Lands(isa, jit, run + [next], after, left)
  {
    var longer := run + [next];
    assert run[|run|-1] == before;
    forall k | 0 <= k < |longer| - 1 ensures TurnAt(isa, jit, longer, k) {
      assert k < |run| - 1 ==> TurnAt(isa, jit, run, k);
    }
  }

  lemma RunPrefix(isa: Isa, jit: Option<Jit>, run: seq<Image>, n: nat)
    requires IsRun(isa, jit, run) && 0 < n <= |run|
    ensures IsRun(isa, jit, run[..n])
  {
    forall k | 0 <= k < n - 1 ensures TurnAt(isa, jit, run[..n], k) { assert TurnAt(isa, jit, run, k); }
  }

  /** From `c` to `d` an atomic block waited for a slice of its own: nothing ran, the request was noted and the
      slice is over. */
  ghost predicate Waits(isa: Isa, c: Core, block: BasicBlock, d: Core) {
    && isa.multiprocessing && block.atomic && !c.atomic && d.atomic
    && d.cpu == c.cpu && d.memory == c.memory && d.calls == c.calls && d.jitStack == c.jitStack
    && d.time.Ns() == c.time.Ns() && d.time.nbInstructions == c.time.nbInstructions && d.time.Stopped()
  }

  /** The clock ticked `count` times, once a yield had ended the slice if there was one. */
  ghost predicate Passed(c: Clock, count: nat, yielded: bool, d: Clock) {
    && d.waitTime == c.waitTime && d.nbInstructions == c.nbInstructions + count
    && d.instructionLimit == if yielded then c.nbInstructions else c.instructionLimit
  }

  /** What the instruction set says `block` does took `c` to `d`. */
  ghost predicate Executes(isa: Isa, jit: Option<Jit>, c: Core, block: BasicBlock, d: Core) {
    var e := isa.exec(block, c.cpu, c.memory);
    && !(isa.multiprocessing && block.atomic && !c.atomic) && d.atomic == c.atomic
    && d.cpu == e.cpu && d.memory == e.memory && Passed(c.time, block.length, e.yielded, d.time)
    && if jit.Some?
       then
         && d.calls == c.calls && |d.jitStack| == |c.jitStack| + Net(e.actions)
         && forall i | 0 <= i < |d.jitStack| ::
              if StaysAbove(c.jitStack, e.actions, i) && !Unwinds(e.actions)
              then i < |c.jitStack| && d.jitStack[i] == c.jitStack[i] else d.jitStack[i] == None
       else
         && d.jitStack == c.jitStack && d.calls.profiling == c.calls.profiling
         && var r := Replay(c.Recorder(), e.actions);
            r.Some? && d.calls.stack == r.value.stack
            && d.calls.trace == if c.calls.profiling then r.value.trace else c.calls.trace
  }

  /** What compiled code `code` does took `c` to `d`. */
  ghost predicate ExecutesNatively(isa: Isa, code: JitBlock, c: Core, d: Core) {
    var e := isa.native(code, c.cpu, c.memory, c.time, c.jitStack);
    && d.cpu == e.cpu && d.memory == e.memory && d.jitStack == e.stack && d.atomic == c.atomic && d.calls == c.calls
    && Passed(c.time, e.ticks, e.yielded, d.time)
  }

  /** The block at the instruction pointer of `b` is fetched unless there is none; with a compiler, so may be the
      one that a call returns to. Fetched blocks are what is disassembled from memory. */
  ghost predicate Fetches(isa: Isa, jit: Option<Jit>, a: Image, b: Image) {
    var rip, memory := b.core.cpu.regs.rip, b.core.memory;
    && Keeps(a, b) && (rip in b.blocks <==> rip in a.blocks || isa.disassemble(memory, rip).Some?)
    && forall x | x in b.blocks && x !in a.blocks ::
         Some(b.blocks[x]) == isa.disassemble(memory, x) && (x == rip || jit.Some?)
  }

  lemma LinkFetches(isa: Isa, jit: Option<Jit>, a: Image, core: Core, left: BasicBlock)
    ensures Fetches(isa, jit, a, a.(core := core).Link(isa, jit, left))
  {}

  lemma RanExecutes(isa: Isa, jit: Option<Jit>, c: Core, block: BasicBlock)
    requires isa.Sound() && !c.Underflows(isa, jit, block)
    ensures var d := c.Ran(isa, jit, block);
      if c.MustWait(isa, block) then Waits(isa, c, block, d) else Executes(isa, jit, c, block, d)
  {
    if !c.MustWait(isa, block) {
      var e := c.Done(isa, block);
      assert NoEarlyCall(isa.exec(block, c.cpu, c.memory).actions);
      PlayedIsReplay(c.calls, c.time.Ns(), e.actions);
      NotifiedIs(c.jitStack, e.actions);
    }
  }

  /** When a block would return with nothing on the call stack: with a compiler at some point more returned than was
      on its stack and was called, and without one some return finds the recorded stack empty. */
  lemma UnderflowsIff(isa: Isa, jit: Option<Jit>, c: Core, block: BasicBlock)
    requires isa.Sound()
    ensures var actions := isa.exec(block, c.cpu, c.memory).actions;
      c.Underflows(isa, jit, block) <==>
        && !(isa.multiprocessing && block.atomic && !c.atomic)
        && if jit.Some? then Underruns(c.jitStack, actions) else Replay(c.Recorder(), actions).None?
  {
    var actions := isa.exec(block, c.cpu, c.memory).actions;
    assert NoEarlyCall(actions);
    PlayedIsReplay(c.calls, c.time.Ns(), actions);
    NotifiedIs(c.jitStack, actions);
  }

  lemma RanNativeExecutes(isa: Isa, c: Core, code: JitBlock)
    ensures ExecutesNatively(isa, code, c, c.RanNative(isa, code))
  {}

  /** Every turn of a run waits or does what the instruction set says, interpreted or natively, and fetches what
      comes next. */
  lemma RunExecutes(isa: Isa, jit: Option<Jit>, run: seq<Image>, k: nat)
    requires isa.Sound() && IsRun(isa, jit, run) && k < |run| - 1
    ensures !run[k].core.time.Stopped() && run[k].core.cpu.regs.rip in run[k].blocks
    ensures var a, b, block := run[k], run[k+1], run[k].blocks[run[k].core.cpu.regs.rip];
      || (Waits(isa, a.core, block, b.core) && b.blocks == a.blocks)
      || (Executes(isa, jit, a.core, block, b.core) && Fetches(isa, jit, a, b))
      || (jit.Some? && jit.value.compile(block).Some?
          && ExecutesNatively(isa, jit.value.compile(block).value, a.core, b.core) && Fetches(isa, jit, a, b))
  {
    assert TurnAt(isa, jit, run, k);
    var a := run[k];
    if a.CanRun(isa, jit) {
      RanExecutes(isa, jit, a.core, a.Block());
      LinkFetches(isa, jit, a, a.core.Ran(isa, jit, a.Block()), a.Block());
    }
    if a.Compiles(jit) {
      var code := jit.value.compile(a.Block()).value;
      RanNativeExecutes(isa, a.core, code);
      LinkFetches(isa, jit, a, a.core.RanNative(isa, code), a.LeftNative(isa, jit));
    }
  }

  /** The interpreter is deterministic: of two runs from one image the shorter is a prefix of the longer,
      and a finished run is the longest. */
  lemma {:induction false} RunsAgree(isa: Isa, a: seq<Image>, b: seq<Image>)
    requires IsRun(isa, None, a) && IsRun(isa, None, b) && a[0] == b[0] && |a| <= |b|
    ensures a == b[..|a|]
    ensures a[|a|-1].core.time.Stopped() ==> a == b
  {
    var n := |a| - 1;
    if n > 0 {
      RunPrefix(isa, None, a, n);
      RunsAgree(isa, a[..n], b);
      assert TurnAt(isa, None, a, n - 1) && TurnAt(isa, None, b, n - 1);
      assert a == a[..n] + [a[n]];
      assert a[..n][n-1] == b[..n][n-1];
    }
    if |a| < |b| { assert TurnAt(isa, None, b, n); }
  }

  /** Blocks once fetched stay as they are. */
  ghost predicate Keeps(a: Image, b: Image) {
    forall x | x in a.blocks :: x in b.blocks && b.blocks[x] == a.blocks[x]
  }

  /** From clock `s` to `r` the limit stays or is withdrawn, and without a yield time goes on. */
  ghost predicate Advances(s: Clock, r: Clock) {
    && r.waitTime == s.waitTime && s.nbInstructions <= r.nbInstructions
    && (r.Stopped() || (r.instructionLimit == s.instructionLimit && r.nbInstructions > s.nbInstructions))
  }

  lemma TurnAdvances(isa: Isa, jit: Option<Jit>, s: Image, r: Image)
    requires isa.Sound() && IsTurn(isa, jit, s, r)
    ensures Advances(s.core.time, r.core.time) && Keeps(s, r)
    ensures jit.None? ==> r.core.time.nbInstructions <= s.core.time.nbInstructions + s.Block().length
  {
    if s.Compiles(jit) {
      var j := jit.value.compile(s.Block()).value;
      assert isa.native(j, s.core.cpu, s.core.memory, s.core.time, s.core.jitStack).ticks > 0;
    }
  }

  /** A slice ends: it has at most one turn per instruction allowed and, interpreted, exceeds its limit by
      less than the length of its last block. */
  lemma {:induction false} SliceEnds(isa: Isa, jit: Option<Jit>, run: seq<Image>)
    requires isa.Sound() && IsRun(isa, jit, run)
    ensures var s, r := run[0], run[|run|-1];
      && r.core.time.waitTime == s.core.time.waitTime && Keeps(s, r)
      && r.core.time.nbInstructions >= s.core.time.nbInstructions
      && (!r.core.time.Stopped() ==>
        && r.core.time.nbInstructions >= s.core.time.nbInstructions + |run| - 1
        && r.core.time.instructionLimit == s.core.time.instructionLimit)
    ensures var s, r := run[0], run[|run|-1]; |run| > 1 ==>
      && |run| - 1 <= s.core.time.instructionLimit - s.core.time.nbInstructions
      && run[|run|-2].Fetched()
      && (jit.None? ==> r.core.time.nbInstructions < s.core.time.instructionLimit + run[|run|-2].Block().length)
  {
    var n := |run| - 1;
    if n > 0 {
      RunPrefix(isa, jit, run, n);
      SliceEnds(isa, jit, run[..n]);
      assert TurnAt(isa, jit, run, n - 1);
      TurnAdvances(isa, jit, run[n-1], run[n]);
    }
  }

  /** What happens to the call stack in a run. */
  ghost function Log(isa: Isa, run: seq<Image>): seq<Action>
    requires IsRun(isa, None, run)
  {
    if |run| == 1 then []
    else
      RunPrefix(isa, None, run, |run| - 1);
      assert TurnAt(isa, None, run, |run| - 2);
      var before := run[|run|-2];
      if before.core.MustWait(isa, before.Block()) then Log(isa, run[..|run|-1])
      else Log(isa, run[..|run|-1]) + before.core.Done(isa, before.Block()).actions + [Pass(before.Block().length)]
  }

  /** A profiled thread records exactly that. */
  lemma {:induction false} LogIsRecorded(isa: Isa, run: seq<Image>)
    requires isa.Sound() && IsRun(isa, None, run) && run[0].core.calls.profiling
    ensures Replay(run[0].core.Recorder(), Log(isa, run)) == Some(run[|run|-1].core.Recorder())
    ensures run[|run|-1].core.calls.profiling
  {
    if |run| > 1 {
      var n := |run| - 1;
      RunPrefix(isa, None, run, n);
      LogIsRecorded(isa, run[..n]);
      assert TurnAt(isa, None, run, n - 1);
      BlockIsRecorded(isa, run[n-1], run[0].core.Recorder(), Log(isa, run[..n]));
    }
  }

  lemma BlockIsRecorded(isa: Isa, before: Image, r: Recorder, log: seq<Action>)
    requires isa.Sound() && before.CanRun(isa, None) && before.core.calls.profiling
    requires Replay(r, log) == Some(before.core.Recorder())
    ensures var after := before.core.Ran(isa, None, before.Block());
      && after.calls.profiling
      && if before.core.MustWait(isa, before.Block()) then Replay(r, log) == Some(after.Recorder())
         else Replay(r, log + before.core.Done(isa, before.Block()).actions + [Pass(before.Block().length)])
              == Some(after.Recorder())
  {
    var c, block := before.core, before.Block();
    if !c.MustWait(isa, block) {
      assert NoEarlyCall(isa.exec(block, c.cpu, c.memory).actions);
      PlayOn(r, log, c.calls, c.time.Ns(), c.Done(isa, block).actions, block.length);
    }
  }

  lemma PlayOn(r: Recorder, log: seq<Action>, c: Recording, now: nat, actions: seq<Action>, length: nat)
    requires Replay(r, log) == Some(c.At(now)) && c.profiling && c.Played(now, actions).Some?
    requires forall i | 0 <= i < |actions| :: !actions[i].Pass?
    ensures c.Played(now, actions).value.profiling
    ensures Replay(r, log + actions + [Pass(length)]) == Some(c.Played(now, actions).value.At(now + length))
  {
    var q := c.Played(now, actions).value.At(now);
    assert Replay(r, log + actions) == Some(q) by {
      PlayedIsReplay(c, now, actions);
      ReplayOn(r, log, actions);
    }
    assert c.Played(now, actions).value.profiling by { PlayedIsReplay(c, now, actions); }
    ReplayPass(r, log + actions, q, length);
  }

  lemma ReplayPass(r: Recorder, log: seq<Action>, q: Recorder, length: nat)
    requires Replay(r, log) == Some(q)
    ensures Replay(r, log + [Pass(length)]) == Some(q.(now := q.now + length))
  {
    assert (log + [Pass(length)])[..|log|] == log;
  }

  /** Time has moved on since the last call. */
  ghost predicate Rested(log: seq<Action>) {
    match Record(log)
    case None => true
    case Some(r) => !JustCalled(r)
  }

  lemma {:induction false} EarlyActions(log: seq<Action>, actions: seq<Action>, k: nat)
    requires CallsTakeTime(log) && Rested(log) && NoEarlyCall(actions) && k <= |actions|
    ensures CallsTakeTime(log + actions[..k])
    ensures k < |actions| ==> Rested(log + actions[..k])
  {
    if k == 0 {
      assert log + actions[..0] == log;
    } else {
      EarlyActions(log, actions, k - 1);
      OneMore(log + actions[..k-1], actions[k-1]);
      assert log + actions[..k] == log + actions[..k-1] + [actions[k-1]];
    }
  }

  lemma OneMore(log: seq<Action>, a: Action)
    requires CallsTakeTime(log) && (Rested(log) || a.Pass?)
    ensures CallsTakeTime(log + [a])
    ensures !a.Call? && Rested(log) ==> Rested(log + [a])
    ensures a.Pass? && a.ns > 0 ==> Rested(log + [a])
  {
    assert (log + [a])[..|log|] == log;
    match Record(log)
    case None =>
    case Some(r) =>
      RecordKeeps(log);
      if a.Possible(r) && !a.Call? && (Rested(log) || a.ns > 0) { Resting(r, a); }
  }

  lemma Resting(r: Recorder, a: Action)
    requires UpToNow(r) && a.Possible(r) && !a.Call? && (!JustCalled(r) || (a.Pass? && a.ns > 0))
    ensures !JustCalled(a.Apply(r))
  {
    var more := Added(r, a);
    if more != [] { assert (r.trace + more)[|r.trace + more| - 1] == more[|more|-1]; }
  }

  /** Calls take time in any slice, whatever was recorded before it, so that what a profiled thread
      records can be merged. */
  lemma {:induction false} LogTakesTime(isa: Isa, run: seq<Image>, past: seq<Action>)
    requires isa.Sound() && IsRun(isa, None, run) && CallsTakeTime(past) && Rested(past)
    ensures CallsTakeTime(past + Log(isa, run)) && Rested(past + Log(isa, run))
  {
    if |run| == 1 {
      assert past + [] == past;
    } else {
      var n := |run| - 1;
      RunPrefix(isa, None, run, n);
      LogTakesTime(isa, run[..n], past);
      assert TurnAt(isa, None, run, n - 1);
      var before := run[n-1];
      if !before.core.MustWait(isa, before.Block()) {
        var actions, length := before.core.Done(isa, before.Block()).actions, before.Block().length;
        assert NoEarlyCall(isa.exec(before.Block(), before.core.cpu, before.core.memory).actions);
        BlockTakesTime(past + Log(isa, run[..n]), actions, length);
        Regroup(past, Log(isa, run[..n]), actions, Pass(length));
      }
    }
  }

  lemma BlockTakesTime(log: seq<Action>, actions: seq<Action>, length: nat)
    requires CallsTakeTime(log) && Rested(log) && NoEarlyCall(actions) && length > 0
    ensures CallsTakeTime(log + actions + [Pass(length)]) && Rested(log + actions + [Pass(length)])
  {
    EarlyActions(log, actions, |actions|);
    assert actions[..|actions|] == actions;
    OneMore(log + actions, Pass(length));
  }

  lemma Regroup(a: seq<Action>, b: seq<Action>, c: seq<Action>, d: Action)
    ensures a + (b + c + [d]) == a + b + c + [d]
  {}
}
