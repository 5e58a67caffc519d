/** What the locking protocol guarantees, over every schedule. */
module LockedLaws {
  import opened Types
  import opened LockedMemory

  ghost predicate Schedule(ps: Programs, sched: seq<nat>) {
    forall k | 0 <= k < |sched| :: sched[k] < |ps|
  }

  /** The state after the threads of `sched` have taken one step each, in that order. */
  ghost function Run(ps: Programs, init: seq<seq<byte>>, sched: seq<nat>): (s: State)
    requires SoundStart(ps, init) && Schedule(ps, sched)
    ensures Inv(ps, init, s) && Shaped(ps, s)
  {
    if sched == [] then
      StartInv(ps, init);
      InvShaped(ps, init, Start(ps, init));
      Start(ps, init)
    else
      var before := Run(ps, init, sched[..|sched|-1]);
      StepKeeps(ps, init, before, sched[|sched|-1]);
      InvShaped(ps, init, Step(ps, before, sched[|sched|-1]));
      Step(ps, before, sched[|sched|-1])
  }

  /** At most one thread is between acquire and release on a region; a free region holds the fold of its
      log, in which every access that has begun stands once, in program order for each thread; and every
      value a read-modify-write saw is the cell as the entries before its own left it. */
  ghost predicate Linear(ps: Programs, init: seq<seq<byte>>, s: State) {
    && |s.threads| == |ps| && |s.regions| == |init|
    && (forall r, t, u | 0 <= r < |init| && Critical(ps, s, t, r) && Critical(ps, s, u, r) :: t == u)
    && (forall r | 0 <= r < |init| && !s.regions[r].locked ::
          AllInside(s.regions[r].log, |init[r]|) && s.regions[r].bytes == Fold(init[r], s.regions[r].log))
    && (forall r | 0 <= r < |init| :: InOrder(s.regions[r].log))
    && (forall r, k | 0 <= r < |init| && 0 <= k < |s.regions[r].log| :: EntryOk(ps, s, r, s.regions[r].log[k]))
    && (forall t, i | 0 <= t < |ps| && 0 <= i < |ps[t]| && Begun(ps, s, t, i) :: Logged(ps, s, t, i))
    && (forall t, j | 0 <= t < |ps| && 0 <= j < |s.threads[t].seen| :: SeenOk(ps, s, init, t, s.threads[t].seen[j]))
    && (forall t, i | 0 <= t < |ps| && 0 <= i < |ps[t]| :: HasSeen(ps[t], s.threads[t], i))
  }

  /** Locked accesses are linearizable, in every schedule and at every point of it. */
  lemma Linearizable(ps: Programs, init: seq<seq<byte>>, sched: seq<nat>)
    requires SoundStart(ps, init) && Schedule(ps, sched)
    ensures Linear(ps, init, Run(ps, init, sched))
  {
    InvLinearizable(ps, init, Run(ps, init, sched));
  }

  lemma InvLinearizable(ps: Programs, init: seq<seq<byte>>, s: State)
    requires Inv(ps, init, s)
    ensures Linear(ps, init, s)
  {
    assert forall r {:trigger s.regions[r]} | 0 <= r < |init| :: RegionOk(ps, s, init, r);
    forall r, t, u | 0 <= r < |init| && Critical(ps, s, t, r) && Critical(ps, s, u, r) ensures t == u {
      MutualExclusion(ps, init, s, r);
    }
    forall t, i | 0 <= t < |ps| && 0 <= i < |ps[t]| && Begun(ps, s, t, i) ensures Logged(ps, s, t, i) {
      assert ThreadOk(ps, s, init, t);
    }
    forall t, j | 0 <= t < |ps| && 0 <= j < |s.threads[t].seen| ensures SeenOk(ps, s, init, t, s.threads[t].seen[j]) {
      assert ThreadOk(ps, s, init, t);
    }
    forall t, i | 0 <= t < |ps| && 0 <= i < |ps[t]| ensures HasSeen(ps[t], s.threads[t], i) {
      assert ThreadOk(ps, s, init, t);
    }
  }

  /** Each thread's entries are in program order, so none is there twice. */
  ghost predicate InOrder(log: seq<Entry>) {
    forall k, l | 0 <= k < l < |log| && log[k].thread == log[l].thread :: log[k].index < log[l].index
  }

  /** An addition to exactly the cell of `w` bytes at `o`. */
  ghost predicate AddsTo(a: Access, o: nat, w: nat) {
    a.offset == o && a.width == w && (a.op.Add? || a.op.Xadd?)
  }

  ghost predicate Apart(a: Access, o: nat, w: nat) {
    a.offset + a.width <= o || o + w <= a.offset
  }

  /** Every access of `log` adds to the cell or keeps off it. */
  ghost predicate OnlyAdds(log: seq<Entry>, o: nat, w: nat) {
    forall k | 0 <= k < |log| :: AddsTo(log[k].access, o, w) || Apart(log[k].access, o, w)
  }

  ghost function Operand(a: Access, o: nat, w: nat): nat {
    if AddsTo(a, o, w) then a.op.src else 0
  }

  ghost function Total(log: seq<Entry>, o: nat, w: nat): nat {
    if log == [] then 0 else Total(log[..|log|-1], o, w) + Operand(log[|log|-1].access, o, w)
  }

  lemma AppliedApart(bytes: seq<byte>, a: Access, o: nat, w: nat)
    requires Inside(a, |bytes|) && Apart(a, o, w) && o + w <= |bytes|
    ensures Applied(bytes, a)[o..o + w] == bytes[o..o + w]
  {}

  lemma AppliedCell(bytes: seq<byte>, a: Access)
    requires Inside(a, |bytes|)
    ensures Cell(Applied(bytes, a), a) == a.op.Modify(Cell(bytes, a), a.width)
  {
    var v := a.op.Modify(Cell(bytes, a), a.width);
    assert Applied(bytes, a)[a.offset..a.offset + a.width] == Bytes(v, a.width);
    ValueOfBytes(v, a.width);
  }

  /** Access `a` takes its cell from `before` to `after`: an addition adds modulo the cell's range, a comparison
      that fails leaves the cell and one that holds stores the source, as an exchange and a plain write always do. */
  ghost predicate Leaves(a: Access, before: nat, after: nat)
    requires a.op.Fits(a.width)
  {
    match a.op
    case Add(src) => after == Wrap(before + src, a.width)
    case Xadd(src) => after == Wrap(before + src, a.width)
    case Cmpxchg(expected, src) => after == if before == expected then src else before
    case Xchg(src) => after == src
    case Store(src) => after == src
    case Load => after == before
  }

  lemma AccessLeaves(bytes: seq<byte>, a: Access)
    requires Inside(a, |bytes|)
    ensures Leaves(a, Cell(bytes, a), Cell(Applied(bytes, a), a))
  {
    AppliedCell(bytes, a);
  }

  lemma LastEntry(init: seq<byte>, log: seq<Entry>, before: seq<byte>)
    requires AllInside(log, |init|) && log != [] && before == Fold(init, log[..|log|-1])
    ensures Fold(init, log) == Applied(before, log[|log|-1].access)
  {}

  lemma UpTo(log: seq<Entry>, k: nat)
    requires k < |log|
    ensures log[..k+1] != [] && log[..k+1][|log[..k+1]|-1] == log[k] && log[..k+1][..|log[..k+1]|-1] == log[..k]
  {}

  lemma NextEntry(init: seq<byte>, log: seq<Entry>, k: nat, before: seq<byte>)
    requires AllInside(log, |init|) && k < |log| && before == Fold(init, log[..k])
    ensures Fold(init, log[..k+1]) == Applied(before, log[k].access)
  {
    UpTo(log, k);
    LastEntry(init, log[..k+1], before);
  }

  /** What a thread saw decides what its access left behind. */
  lemma SawAndLeft(init: seq<byte>, log: seq<Entry>, t: nat, seen: Seen, k: nat)
    requires SawAt(log, init, t, seen, k)
    ensures Leaves(log[k].access, seen.value, Cell(Fold(init, log[..k+1]), log[k].access))
  {
    var before := Fold(init, log[..k]);
    NextEntry(init, log, k, before);
    AccessLeaves(before, log[k].access);
  }

  /** A CMPXCHG on exactly the cell of `w` bytes at `o` that expects `e` and would store something else. */
  ghost predicate Competes(a: Access, o: nat, w: nat, e: nat) {
    a.offset == o && a.width == w && a.op.Cmpxchg? && a.op.expected == e && a.op.src != e
  }

  ghost predicate OnlyCompete(log: seq<Entry>, o: nat, w: nat, e: nat) {
    forall k | 0 <= k < |log| :: Competes(log[k].access, o, w, e) || Apart(log[k].access, o, w)
  }

  /** The first entry that competes for the cell, or none. */
  ghost function First(log: seq<Entry>, o: nat, w: nat, e: nat): (n: nat)
    ensures n <= |log| && (n < |log| ==> Competes(log[n].access, o, w, e))
    ensures forall k | 0 <= k < n :: !Competes(log[k].access, o, w, e)
  {
    if log == [] then 0
    else
      var n := First(log[..|log|-1], o, w, e);
      if n < |log| - 1 || Competes(log[|log|-1].access, o, w, e) then n else |log|
  }

  lemma Competed(before: seq<byte>, a: Access, o: nat, w: nat, e: nat)
    requires Inside(a, |before|) && o + w <= |before| && (Competes(a, o, w, e) || Apart(a, o, w))
    ensures var held := Value(before[o..o + w]);
      Value(Applied(before, a)[o..o + w]) == if Competes(a, o, w, e) && held == e then a.op.src else held
  {
    if Competes(a, o, w, e) { AccessLeaves(before, a); } else { AppliedApart(before, a, o, w); }
  }

  /** The first of several compare-and-swaps that expect what the cell holds succeeds, and it alone. */
  lemma {:induction false} FirstSucceeds(init: seq<byte>, log: seq<Entry>, o: nat, w: nat, e: nat)
    requires AllInside(log, |init|) && Sized(w) && o + w <= |init| && OnlyCompete(log, o, w, e)
    requires Value(init[o..o + w]) == e
    ensures var n := First(log, o, w, e);
      Value(Fold(init, log)[o..o + w]) == if n < |log| then log[n].access.op.src else e
  {
    if log != [] {
      var k := |log| - 1;
      var before := Fold(init, log[..k]);
      FirstSucceeds(init, log[..k], o, w, e);
      LastEntry(init, log, before);
      Competed(before, log[k].access, o, w, e);
    }
  }

  /** The cell of `w` bytes at `o` holds what it held in `init` plus `total`. */
  ghost predicate Holding(init: seq<byte>, bytes: seq<byte>, total: nat, o: nat, w: nat) {
    && Sized(w) && |bytes| == |init| && o + w <= |init|
    && Value(bytes[o..o + w]) == Wrap(Value(init[o..o + w]) + total, w)
  }

  lemma AddHere(init: seq<byte>, before: seq<byte>, a: Access, total: nat)
    requires Inside(a, |init|) && Holding(init, before, total, a.offset, a.width) && (a.op.Add? || a.op.Xadd?)
    ensures Holding(init, Applied(before, a), total + a.op.src, a.offset, a.width)
  {
    AppliedCell(before, a);
    WrapAdd(Cell(init, a), total, a.op.src, a.width);
  }

  lemma AddOne(init: seq<byte>, before: seq<byte>, a: Access, total: nat, o: nat, w: nat)
    requires Holding(init, before, total, o, w) && Inside(a, |init|) && (AddsTo(a, o, w) || Apart(a, o, w))
    ensures Holding(init, Applied(before, a), total + Operand(a, o, w), o, w)
  {
    if AddsTo(a, o, w) { AddHere(init, before, a, total); } else { AppliedApart(before, a, o, w); }
  }

  /** No addition is lost: the cell is the initial value plus all operands, modulo 2^(8w). */
  lemma {:induction false} AddsAddUp(init: seq<byte>, log: seq<Entry>, o: nat, w: nat)
    requires AllInside(log, |init|) && Sized(w) && o + w <= |init| && OnlyAdds(log, o, w)
    ensures Holding(init, Fold(init, log), Total(log, o, w), o, w)
  {
    if log == [] {
      ValueFits(init[o..o + w]);
    } else {
      var n := |log| - 1;
      AddsAddUp(init, log[..n], o, w);
      AddEntry(init, Fold(init, log[..n]), log, Total(log[..n], o, w), o, w);
    }
  }

  lemma AddEntry(init: seq<byte>, before: seq<byte>, log: seq<Entry>, total: nat, o: nat, w: nat)
    requires log != [] && AllInside(log, |init|) && OnlyAdds(log, o, w) && Holding(init, before, total, o, w)
    requires before == Fold(init, log[..|log|-1]) && total == Total(log[..|log|-1], o, w)
    ensures Holding(init, Fold(init, log), Total(log, o, w), o, w)
  {
    var a := log[|log|-1].access;
    AddOne(init, before, a, total, o, w);
    LastEntry(init, log, before);
    HoldingSame(init, Applied(before, a), Fold(init, log), total + Operand(a, o, w), Total(log, o, w), o, w);
  }

  lemma HoldingSame(init: seq<byte>, a: seq<byte>, b: seq<byte>, s: nat, t: nat, o: nat, w: nat)
    requires Holding(init, a, s, o, w) && a == b && s == t
    ensures Holding(init, b, t, o, w)
  {}

  /** An XADD returns the initial value plus the operands before its turn. */
  lemma XaddSawPrefix(init: seq<byte>, log: seq<Entry>, t: nat, seen: Seen, k: nat, o: nat, w: nat)
    requires SawAt(log, init, t, seen, k) && Sized(w) && o + w <= |init| && OnlyAdds(log, o, w)
    requires AddsTo(log[k].access, o, w)
    ensures seen.value == Wrap(Value(init[o..o + w]) + Total(log[..k], o, w), w)
  {
    AddsAddUp(init, log[..k], o, w);
  }

  /** How many accesses a thread has begun. */
  ghost function Began(th: Thread): nat {
    th.next + (if th.phase.Critical() then 1 else 0)
  }

  /** The operands, for the cell, of the first `n` accesses of a program. */
  ghost function ProgramTotal(program: seq<Access>, n: nat, r: nat, o: nat, w: nat): nat
    requires n <= |program|
  {
    if n == 0 then 0
    else ProgramTotal(program, n - 1, r, o, w) + (if program[n-1].region == r then Operand(program[n-1], o, w) else 0)
  }

  ghost predicate InBounds(ps: Programs, s: State) {
    |s.threads| == |ps| && forall t {:trigger Began(s.threads[t])} | 0 <= t < |ps| :: Began(s.threads[t]) <= |ps[t]|
  }

  /** The operands begun by the first `n` threads. */
  ghost function BegunTotal(ps: Programs, s: State, n: nat, r: nat, o: nat, w: nat): nat
    requires InBounds(ps, s) && n <= |ps|
  {
    if n == 0 then 0
    else BegunTotal(ps, s, n - 1, r, o, w) + ProgramTotal(ps[n-1], Began(s.threads[n-1]), r, o, w)
  }

  lemma InvInBounds(ps: Programs, init: seq<seq<byte>>, s: State)
    requires Inv(ps, init, s)
    ensures InBounds(ps, s)
  {
    forall t | 0 <= t < |ps| ensures Began(s.threads[t]) <= |ps[t]| { assert ThreadOk(ps, s, init, t); }
  }

  lemma {:induction false} TotalMoves(ps: Programs, s: State, s2: State, t: nat, n: nat, r: nat, o: nat, w: nat)
    requires InBounds(ps, s) && InBounds(ps, s2) && n <= |ps| && t < |ps|
    requires forall u | 0 <= u < |ps| && u != t :: s2.threads[u] == s.threads[u]
    ensures BegunTotal(ps, s2, n, r, o, w) - BegunTotal(ps, s, n, r, o, w) ==
      if t < n
      then ProgramTotal(ps[t], Began(s2.threads[t]), r, o, w) - ProgramTotal(ps[t], Began(s.threads[t]), r, o, w)
      else 0
  {
    if n > 0 { TotalMoves(ps, s, s2, t, n - 1, r, o, w); }
  }

  lemma StepBalances(ps: Programs, init: seq<seq<byte>>, s: State, t: nat, r: nat, o: nat, w: nat)
    requires Inv(ps, init, s) && Shaped(ps, s) && t < |ps| && r < |init|
    requires InBounds(ps, s) && InBounds(ps, Step(ps, s, t))
    requires Total(s.regions[r].log, o, w) == BegunTotal(ps, s, |ps|, r, o, w)
    ensures Total(Step(ps, s, t).regions[r].log, o, w) == BegunTotal(ps, Step(ps, s, t), |ps|, r, o, w)
  {
    TotalMoves(ps, s, Step(ps, s, t), t, |ps|, r, o, w);
    StepBegins(ps, init, s, t, r, o, w);
  }

  /** Nothing is lost or done twice: what the log of a region adds to a cell is what the threads have begun. */
  lemma {:induction false} LogIsWhatBegan(ps: Programs, init: seq<seq<byte>>, sched: seq<nat>, r: nat, o: nat, w: nat)
    requires SoundStart(ps, init) && Schedule(ps, sched) && r < |init|
    ensures InBounds(ps, Run(ps, init, sched))
    ensures Total(Run(ps, init, sched).regions[r].log, o, w) == BegunTotal(ps, Run(ps, init, sched), |ps|, r, o, w)
  {
    InvInBounds(ps, init, Run(ps, init, sched));
    if sched == [] {
      NothingBegun(ps, Run(ps, init, sched), |ps|, r, o, w);
    } else {
      var before := sched[..|sched|-1];
      LogIsWhatBegan(ps, init, before, r, o, w);
      StepBalances(ps, init, Run(ps, init, before), sched[|sched|-1], r, o, w);
    }
  }

  lemma {:induction false} NothingBegun(ps: Programs, s: State, n: nat, r: nat, o: nat, w: nat)
    requires InBounds(ps, s) && n <= |ps| && forall t | 0 <= t < |ps| :: Began(s.threads[t]) == 0
    ensures BegunTotal(ps, s, n, r, o, w) == 0
  {
    if n > 0 { NothingBegun(ps, s, n - 1, r, o, w); }
  }

  /** A step adds to a log exactly what its thread begins. */
  lemma StepBegins(ps: Programs, init: seq<seq<byte>>, s: State, t: nat, r: nat, o: nat, w: nat)
    requires Inv(ps, init, s) && Shaped(ps, s) && t < |ps| && r < |init|
    requires InBounds(ps, s) && InBounds(ps, Step(ps, s, t))
    ensures var s2 := Step(ps, s, t);
      Total(s2.regions[r].log, o, w) - Total(s.regions[r].log, o, w) ==
        ProgramTotal(ps[t], Began(s2.threads[t]), r, o, w) - ProgramTotal(ps[t], Began(s.threads[t]), r, o, w)
  {
    assert ThreadOk(ps, s, init, t);
    var s2, th := Step(ps, s, t), s.threads[t];
    if th.next < |ps[t]| {
      var a := ps[t][th.next];
      if th.phase.Between? && !a.op.Load? && !s.regions[a.region].locked && a.region == r {
        var log := s2.regions[r].log;
        assert log[..|log|-1] == s.regions[r].log;
      }
    }
  }

  ghost predicate Finished(ps: Programs, s: State) {
    |s.threads| == |ps| && forall t {:trigger s.threads[t]} | 0 <= t < |ps| :: s.threads[t].next == |ps[t]|
  }

  /** The operands, for the cell, of all programs together. */
  ghost function GrandTotal(ps: Programs, n: nat, r: nat, o: nat, w: nat): nat
    requires n <= |ps|
  {
    if n == 0 then 0 else GrandTotal(ps, n - 1, r, o, w) + ProgramTotal(ps[n-1], |ps[n-1]|, r, o, w)
  }

  lemma {:induction false} AllBegun(ps: Programs, s: State, n: nat, r: nat, o: nat, w: nat)
    requires InBounds(ps, s) && n <= |ps| && forall t | 0 <= t < |ps| :: Began(s.threads[t]) == |ps[t]|
    ensures BegunTotal(ps, s, n, r, o, w) == GrandTotal(ps, n, r, o, w)
  {
    if n > 0 { AllBegun(ps, s, n - 1, r, o, w); }
  }

  /** Any number of threads adding to a cell that nothing else touches: whatever the schedule, in the end
      it holds the initial value plus every operand of every program, modulo 2^(8w). */
  lemma SumIsExact(ps: Programs, init: seq<seq<byte>>, sched: seq<nat>, r: nat, o: nat, w: nat)
    requires SoundStart(ps, init) && Schedule(ps, sched) && r < |init| && Sized(w) && o + w <= |init[r]|
    requires forall t, i | 0 <= t < |ps| && 0 <= i < |ps[t]| && ps[t][i].region == r && !ps[t][i].op.Load? ::
      AddsTo(ps[t][i], o, w) || Apart(ps[t][i], o, w)
    requires Finished(ps, Run(ps, init, sched))
    ensures o + w <= |Run(ps, init, sched).regions[r].bytes|
    ensures Value(Run(ps, init, sched).regions[r].bytes[o..o + w])
      == Wrap(Value(init[r][o..o + w]) + GrandTotal(ps, |ps|, r, o, w), w)
  {
    LogIsWhatBegan(ps, init, sched, r, o, w);
    FinishedSum(ps, init, Run(ps, init, sched), r, o, w);
  }

  lemma FinishedSum(ps: Programs, init: seq<seq<byte>>, s: State, r: nat, o: nat, w: nat)
    requires Inv(ps, init, s) && Finished(ps, s) && r < |init| && Sized(w) && o + w <= |init[r]|
    requires forall t, i | 0 <= t < |ps| && 0 <= i < |ps[t]| && ps[t][i].region == r && !ps[t][i].op.Load? ::
      AddsTo(ps[t][i], o, w) || Apart(ps[t][i], o, w)
    requires InBounds(ps, s) && Total(s.regions[r].log, o, w) == BegunTotal(ps, s, |ps|, r, o, w)
    ensures |s.regions[r].bytes| == |init[r]|
    ensures Value(s.regions[r].bytes[o..o + w]) == Wrap(Value(init[r][o..o + w]) + GrandTotal(ps, |ps|, r, o, w), w)
  {
    FinishedIsFree(ps, init, s, r);
    LoggedAdds(ps, init, s, r, o, w);
    AddsAddUp(init[r], s.regions[r].log, o, w);
    assert |s.regions[r].bytes| == |init[r]|;
    AllBegun(ps, s, |ps|, r, o, w);
  }

  lemma FinishedIsFree(ps: Programs, init: seq<seq<byte>>, s: State, r: nat)
    requires Inv(ps, init, s) && Finished(ps, s) && r < |init|
    ensures forall t | 0 <= t < |ps| :: Began(s.threads[t]) == |ps[t]|
    ensures AllInside(s.regions[r].log, |init[r]|) && s.regions[r].bytes == Fold(init[r], s.regions[r].log)
  {
    assert RegionOk(ps, s, init, r);
    forall t | 0 <= t < |ps| ensures !s.threads[t].phase.Critical() { assert ThreadOk(ps, s, init, t); }
  }

  lemma LoggedAdds(ps: Programs, init: seq<seq<byte>>, s: State, r: nat, o: nat, w: nat)
    requires Inv(ps, init, s) && r < |init|
    requires forall t, i | 0 <= t < |ps| && 0 <= i < |ps[t]| && ps[t][i].region == r && !ps[t][i].op.Load? ::
      AddsTo(ps[t][i], o, w) || Apart(ps[t][i], o, w)
    ensures OnlyAdds(s.regions[r].log, o, w)
  {
    assert RegionOk(ps, s, init, r);
    var log := s.regions[r].log;
    forall k | 0 <= k < |log| ensures AddsTo(log[k].access, o, w) || Apart(log[k].access, o, w) {
      assert EntryOk(ps, s, r, log[k]);
    }
  }

  /** How many steps a thread is from the end of its program when nobody gets in its way. */
  ghost function StepsLeft(program: seq<Access>, th: Thread): int
    requires th.next <= |program|
  {
    if th.next == |program| then 0
    else
      var a := program[th.next];
      StepsFrom(program, th.next + 1) +
      match th.phase
      case Between => 2 * a.width + 4
      case Loading(got) => 2 * a.width + 3 - |got|
      case Reading(got) => 2 * a.width + 3 - |got|
      case Exchanging => a.width + 3
      case Writing(_, done) => a.width + 2 - done
  }

  ghost function StepsFrom(program: seq<Access>, n: nat): nat
    requires n <= |program|
    decreases |program| - n
  {
    if n == |program| then 0 else 2 * program[n].width + 4 + StepsFrom(program, n + 1)
  }

  /** The thread can only try again: the lock it wants is taken. */
  ghost predicate Spins(ps: Programs, s: State, t: nat)
    requires Shaped(ps, s) && t < |ps| && s.threads[t].next < |ps[t]|
  {
    var a := ps[t][s.threads[t].next];
    s.threads[t].phase.Between? && !a.op.Load? && s.regions[a.region].locked
  }

  /** A step either finds the lock taken and changes nothing, or brings its thread nearer its end. */
  lemma StepWorks(ps: Programs, init: seq<seq<byte>>, s: State, t: nat)
    requires Inv(ps, init, s) && Shaped(ps, s) && t < |ps| && s.threads[t].next < |ps[t]|
    ensures Step(ps, s, t).threads[t].next <= |ps[t]|
    ensures if Spins(ps, s, t) then Step(ps, s, t) == s
      else 0 <= StepsLeft(ps[t], Step(ps, s, t).threads[t]) < StepsLeft(ps[t], s.threads[t])
  {
    assert ThreadOk(ps, s, init, t);
    assert StepsFrom(ps[t], s.threads[t].next + 1) >= 0;
  }

  /** There is no deadlock: until all programs are over, some thread gets nearer its end by its next step. */
  lemma SomebodyWorks(ps: Programs, init: seq<seq<byte>>, s: State)
    requires Inv(ps, init, s) && Shaped(ps, s) && !Finished(ps, s)
    ensures exists u | 0 <= u < |ps| && s.threads[u].next < |ps[u]| :: !Spins(ps, s, u)
  {
    var t :| 0 <= t < |ps| && s.threads[t].next != |ps[t]|;
    assert ThreadOk(ps, s, init, t);
    if Spins(ps, s, t) {
      var r := ps[t][s.threads[t].next].region;
      assert RegionOk(ps, s, init, r);
      var u := s.regions[r].log[|s.regions[r].log|-1].thread;
      assert Critical(ps, s, u, r);
      assert !Spins(ps, s, u);
    }
  }

  /** Whatever touches the cell of `w` bytes at `o` in region `r` competes for it. */
  ghost predicate AllCompete(ps: Programs, r: nat, o: nat, w: nat, e: nat) {
    forall t, i | 0 <= t < |ps| && 0 <= i < |ps[t]| && ps[t][i].region == r && !ps[t][i].op.Load? ::
      Competes(ps[t][i], o, w, e) || Apart(ps[t][i], o, w)
  }

  /** Access `i` of thread `t` competed for the cell and saw what it expected. */
  ghost predicate Won(ps: Programs, s: State, t: nat, i: nat, r: nat, o: nat, w: nat, e: nat) {
    && t < |ps| && t < |s.threads| && i < |ps[t]| && ps[t][i].region == r && Competes(ps[t][i], o, w, e)
    && Seen(i, e) in s.threads[t].seen
  }

  /** Of any number of compare-and-swaps that all expect what the cell holds at the start, at most one succeeds in
      any schedule; once all programs are over exactly one has, if there was any, and the cell holds its source. */
  lemma OneWins(ps: Programs, init: seq<seq<byte>>, sched: seq<nat>, r: nat, o: nat, w: nat, e: nat)
    requires SoundStart(ps, init) && Schedule(ps, sched) && r < |init| && Sized(w) && o + w <= |init[r]|
    requires AllCompete(ps, r, o, w, e) && Value(init[r][o..o + w]) == e
    ensures var s := Run(ps, init, sched);
      && (forall t, i, u, j | Won(ps, s, t, i, r, o, w, e) && Won(ps, s, u, j, r, o, w, e) :: t == u && i == j)
      && (Finished(ps, s) && (exists t, i | 0 <= t < |ps| && 0 <= i < |ps[t]| ::
                                ps[t][i].region == r && Competes(ps[t][i], o, w, e)) ==>
            exists t: nat, i: nat | Won(ps, s, t, i, r, o, w, e) ::
              |s.regions[r].bytes| == |init[r]| && Value(s.regions[r].bytes[o..o + w]) == ps[t][i].op.src)
  {
    var s := Run(ps, init, sched);
    forall t, i, u, j | Won(ps, s, t, i, r, o, w, e) && Won(ps, s, u, j, r, o, w, e) ensures t == u && i == j {
      WinnerIsFirst(ps, init, s, t, i, r, o, w, e);
      WinnerIsFirst(ps, init, s, u, j, r, o, w, e);
    }
    if Finished(ps, s) && exists t, i | 0 <= t < |ps| && 0 <= i < |ps[t]| ::
      ps[t][i].region == r && Competes(ps[t][i], o, w, e)
    {
      var t, i :| 0 <= t < |ps| && 0 <= i < |ps[t]| && ps[t][i].region == r && Competes(ps[t][i], o, w, e);
      var u, j := SomebodyWins(ps, init, s, t, i, r, o, w, e);
    }
  }

  lemma LoggedCompete(ps: Programs, init: seq<seq<byte>>, s: State, r: nat, o: nat, w: nat, e: nat)
    requires Inv(ps, init, s) && r < |init| && AllCompete(ps, r, o, w, e)
    ensures AllInside(s.regions[r].log, |init[r]|) && OnlyCompete(s.regions[r].log, o, w, e)
  {
    assert RegionOk(ps, s, init, r);
    var log := s.regions[r].log;
    forall k | 0 <= k < |log| ensures Competes(log[k].access, o, w, e) || Apart(log[k].access, o, w) {
      assert EntryOk(ps, s, r, log[k]);
    }
  }

  /** When a thread saw what it did. */
  lemma SawWhen(ps: Programs, init: seq<seq<byte>>, s: State, t: nat, seen: Seen, r: nat) returns (k: nat)
    requires Inv(ps, init, s) && r < |init| && t < |ps| && t < |s.threads| && seen in s.threads[t].seen
    requires seen.index < |ps[t]| && ps[t][seen.index].region == r
    ensures SawAt(s.regions[r].log, init[r], t, seen, k) && s.regions[r].log[k].access == ps[t][seen.index]
  {
    assert ThreadOk(ps, s, init, t) && RegionOk(ps, s, init, r);
    var j :| 0 <= j < |s.threads[t].seen| && s.threads[t].seen[j] == seen;
    assert SeenOk(ps, s, init, t, s.threads[t].seen[j]);
    k :| SawAt(s.regions[r].log, init[r], t, seen, k);
    assert EntryOk(ps, s, r, s.regions[r].log[k]);
  }

  lemma WinnerIsFirst(ps: Programs, init: seq<seq<byte>>, s: State, t: nat, i: nat, r: nat, o: nat, w: nat, e: nat)
    requires Inv(ps, init, s) && r < |init| && Sized(w) && o + w <= |init[r]| && Won(ps, s, t, i, r, o, w, e)
    requires AllCompete(ps, r, o, w, e) && Value(init[r][o..o + w]) == e
    ensures var log := s.regions[r].log;
      var n := First(log, o, w, e);
      n < |log| && log[n].thread == t && log[n].index == i
  {
    LoggedCompete(ps, init, s, r, o, w, e);
    var log := s.regions[r].log;
    var k := SawWhen(ps, init, s, t, Seen(i, e), r);
    FirstSucceeds(init[r], log[..k], o, w, e);
    FirstIs(log, k, o, w, e);
  }

  /** An entry that competes with none before it is the first. */
  lemma {:induction false} FirstIs(log: seq<Entry>, k: nat, o: nat, w: nat, e: nat)
    requires k < |log| && Competes(log[k].access, o, w, e) && First(log[..k], o, w, e) == k
    ensures First(log, o, w, e) == k
  {
    forall j | 0 <= j < k ensures !Competes(log[j].access, o, w, e) {
      assert log[..k][j] == log[j];
    }
  }

  /** Once all programs are over, the entry that came first has seen what it expected. */
  lemma SomebodyWins(ps: Programs, init: seq<seq<byte>>, s: State, t: nat, i: nat, r: nat, o: nat, w: nat, e: nat)
    returns (u: nat, j: nat)
    requires Inv(ps, init, s) && Finished(ps, s) && r < |init| && Sized(w) && o + w <= |init[r]|
    requires AllCompete(ps, r, o, w, e) && Value(init[r][o..o + w]) == e
    requires t < |ps| && i < |ps[t]| && ps[t][i].region == r && Competes(ps[t][i], o, w, e)
    ensures Won(ps, s, u, j, r, o, w, e)
    ensures |s.regions[r].bytes| == |init[r]| && Value(s.regions[r].bytes[o..o + w]) == ps[u][j].op.src
  {
    LoggedCompete(ps, init, s, r, o, w, e);
    assert ThreadOk(ps, s, init, t) && RegionOk(ps, s, init, r);
    assert Begun(ps, s, t, i) && Logged(ps, s, t, i);
    var log := s.regions[r].log;
    var n := First(log, o, w, e);
    FirstSucceeds(init[r], log, o, w, e);
    FinishedIsFree(ps, init, s, r);
    assert EntryOk(ps, s, r, log[n]);
    u, j := log[n].thread, log[n].index;
    FirstSaw(ps, init, s, n, r, o, w, e);
  }

  lemma FirstSaw(ps: Programs, init: seq<seq<byte>>, s: State, n: nat, r: nat, o: nat, w: nat, e: nat)
    requires Inv(ps, init, s) && Finished(ps, s) && r < |init| && Sized(w) && o + w <= |init[r]|
    requires AllCompete(ps, r, o, w, e) && Value(init[r][o..o + w]) == e
    requires n == First(s.regions[r].log, o, w, e) < |s.regions[r].log|
    ensures EntryOk(ps, s, r, s.regions[r].log[n])
    ensures var entry := s.regions[r].log[n]; Won(ps, s, entry.thread, entry.index, r, o, w, e)
  {
    LoggedCompete(ps, init, s, r, o, w, e);
    var log := s.regions[r].log;
    var seen := EntrySaw(ps, init, s, r, n);
    FirstSucceeds(init[r], log[..n], o, w, e);
    assert forall j | 0 <= j < n :: !Competes(log[..n][j].access, o, w, e);
    assert First(log[..n], o, w, e) == n;
  }

  /** Once all programs are over, every read-modify-write in a log has seen what the entries before it left. */
  lemma EntrySaw(ps: Programs, init: seq<seq<byte>>, s: State, r: nat, n: nat) returns (seen: Seen)
    requires Inv(ps, init, s) && Finished(ps, s) && r < |init| && n < |s.regions[r].log|
    requires !s.regions[r].log[n].access.op.Store?
    ensures EntryOk(ps, s, r, s.regions[r].log[n])
    ensures var entry := s.regions[r].log[n];
      seen.index == entry.index && seen in s.threads[entry.thread].seen
    ensures SawAt(s.regions[r].log, init[r], s.regions[r].log[n].thread, seen, n)
  {
    assert RegionOk(ps, s, init, r);
    var log := s.regions[r].log;
    assert EntryOk(ps, s, r, log[n]);
    var u, j := log[n].thread, log[n].index;
    assert ThreadOk(ps, s, init, u) && HasSeen(ps[u], s.threads[u], j);
    var m :| 0 <= m < |s.threads[u].seen| && s.threads[u].seen[m].index == j;
    seen := s.threads[u].seen[m];
    var k := SawWhen(ps, init, s, u, seen, r);
    assert k == n;
  }
}
