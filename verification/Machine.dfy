/** Processor state as far as thread switching and dispatch see it. */
module Machine {
  import opened Types

  /** The instruction pointer and all other registers. */
  datatype Registers = Registers(rip: u64, others: seq<u64>)

  const SEGMENTS: nat := 8
  const FS: nat := 3

  const ZERO_BASES: seq<u64> := [0, 0, 0, 0, 0, 0, 0, 0]

  type SegmentBases = s: seq<u64> | |s| == SEGMENTS witness ZERO_BASES

  /** The full state of a processor (emulator/include/x64/cpu.h); flags, x87 and MXCSR are opaque. */
  datatype CpuState = CpuState(flags: nat, regs: Registers, x87fpu: nat, mxcsr: nat, segmentBase: SegmentBases)

  /** The part of it that is kept per thread. */
  datatype SavedCpuState = SavedCpuState(flags: nat, regs: Registers, x87fpu: nat, mxcsr: nat, fsBase: u64)

  /** A default-constructed processor state. */
  const INITIAL_STATE := CpuState(0, Registers(0, []), 0, 0, ZERO_BASES)

  datatype Memory = Memory(bytes: seq<bv8>)

  function Save(cpu: CpuState): SavedCpuState {
    SavedCpuState(cpu.flags, cpu.regs, cpu.x87fpu, cpu.mxcsr, cpu.segmentBase[FS])
  }

  /** `cpu` with a thread's saved state installed; segment bases other than FS stay. */
  function Install(cpu: CpuState, saved: SavedCpuState): (r: CpuState)
    ensures Save(r) == saved
    ensures forall i | 0 <= i < SEGMENTS && i != FS :: r.segmentBase[i] == cpu.segmentBase[i]
  {
    CpuState(saved.flags, saved.regs, saved.x87fpu, saved.mxcsr, cpu.segmentBase[FS := saved.fsBase])
  }
}
