/** Basic blocks as nodes of a mutable, cyclic control-flow graph, and the caches
    that the dispatch loop trusts (emulator/src/x64/codesegment.cpp). */
module CodeSegments {
  import opened Types

  const JIT_THRESHOLD: nat := 1024

  /** What the emulator reads of a disassembled block: where it starts and ends, how many instructions it
      holds (a segment is never made of none), how it ends, and where its fixed jump or direct call leads.
      `code` stands for the instructions themselves. */
  datatype Block = Block(start: u64, end: u64, length: pos, fixedJump: bool, directCall: bool, indirectCall: bool,
                         target: u64, atomic: bool, code: nat)
  {
    predicate Fixed() { fixedJump || directCall }

    predicate Calls() { directCall || indirectCall }

    /** Control that leaves the block may arrive at `rip`: a fixed jump or a direct call leads to its
        target or falls through. */
    predicate Leads(rip: u64) {
      Fixed() ==> rip == target || rip == end
    }
  }

  type BasicBlock = b: Block | b.start < b.end witness Block(0, 1, 1, false, false, false, 0, false, 0)

  /** A handle on natively compiled code. */
  datatype JitBlock = JitBlock(id: nat)

  /** The compiler is opaque: it may or may not produce code for a block. */
  datatype Jit = Jit(compile: BasicBlock -> Option<JitBlock>, chaining: bool, callChaining: bool)

  /** The two-slot, frequency-ordered inline cache of a block with fixed destinations. */
  datatype FixedDestinationInfo = FixedDestinationInfo(next: seq<CodeSegment?>, nextCount: seq<nat>) {
    ghost predicate Shaped() {
      |next| == 2 && |nextCount| == 2
    }

    ghost predicate HasRoom()
      requires Shaped()
    {
      next[0] == null || next[1] == null
    }

    /** The slot that answers a lookup, or 2: the search stops at the first empty slot. */
    ghost function HitSlot(address: u64): (i: nat)
      requires Shaped()
      ensures i <= 2
      ensures i < 2 ==> next[i] != null && next[i].start() == address
    {
      if next[0] == null then 2
      else if next[0].start() == address then 0
      else if next[1] == null then 2
      else if next[1].start() == address then 1
      else 2
    }

    /** The cache after a hit in slot `i`: one more count, and the busier slot moves to the front. */
    ghost function Touched(i: nat): (r: FixedDestinationInfo)
      requires Shaped() && i < 2
      ensures r.Shaped()
    {
      var c := nextCount[i := nextCount[i] + 1];
      if i == 1 && c[1] > c[0]
      then FixedDestinationInfo([next[1], next[0]], [c[1], c[0]])
      else FixedDestinationInfo(next, c)
    }

    /** The cache after `other` is stored in the first empty slot. */
    ghost function Added(other: CodeSegment): (r: FixedDestinationInfo)
      requires Shaped() && HasRoom()
      ensures r.Shaped()
    {
      var i := if next[0] == null then 0 else 1;
      FixedDestinationInfo(next[i := other], nextCount[i := 1])
    }

    /** The cache after every slot holding `other` is emptied. */
    ghost function Without(other: CodeSegment): (r: FixedDestinationInfo)
      requires Shaped()
      ensures r.Shaped()
    {
      FixedDestinationInfo(
        [if next[0] == other then null else next[0], if next[1] == other then null else next[1]],
        [if next[0] == other then 0 else nextCount[0], if next[1] == other then 0 else nextCount[1]])
    }
  }

  /** The parallel vectors of a block with variable destinations. */
  datatype VariableDestinationInfo = VariableDestinationInfo(
    next: seq<CodeSegment>, nextJit: seq<Option<JitBlock>>, nextStart: seq<u64>, nextCount: seq<nat>)
  {
    ghost predicate Parallel() {
      && |nextJit| == |next| && |nextStart| == |next| && |nextCount| == |next|
      && (forall i | 0 <= i < |next| :: nextStart[i] == next[i].start())
    }

    function Appended(other: CodeSegment, jit: Option<JitBlock>): VariableDestinationInfo {
      VariableDestinationInfo(next + [other], nextJit + [jit], nextStart + [other.start()], nextCount + [1])
    }

    /** The vectors with every compiled entry looked up again in `g`. */
    ghost function Synced(g: Graph): (r: VariableDestinationInfo)
      requires forall t | t in next :: t in g
    {
      this.(nextJit := seq(|next|, i requires 0 <= i < |next| => g[next[i]].jit))
    }
  }

  const NO_DESTINATIONS := VariableDestinationInfo([], [], [], [])

  /** Whether `m`, a map by start address, holds `s`. */
  ghost predicate Filed(m: map<u64, CodeSegment>, s: CodeSegment) {
    s.start() in m && m[s.start()] == s
  }

  /** Everything a segment holds that takes part in linking: its edges and its caches of them. */
  datatype Node = Node(fixedInfo: FixedDestinationInfo, variableInfo: VariableDestinationInfo,
                       successors: map<u64, CodeSegment>, predecessors: map<u64, CodeSegment>, jit: Option<JitBlock>)
  {
    ghost predicate Succ(t: CodeSegment) {
      Filed(successors, t)
    }

    ghost predicate Pred(s: CodeSegment) {
      Filed(predecessors, s)
    }
  }

  /** A value picture of the heap graph. */
  type Graph = map<CodeSegment, Node>

  /** `g` is an accurate picture of its segments. */
  ghost predicate Pictured(g: Graph)
    reads g.Keys`fixedInfo, g.Keys`variableInfo, g.Keys`successors, g.Keys`predecessors, g.Keys`jitBasicBlock
  {
    forall s {:trigger s.ToNode()} | s in g :: s.ToNode() == g[s]
  }

  /** Every edge leads to a segment of `live`, filed under its own start address. */
  ghost predicate EdgesInside(m: map<u64, CodeSegment>, live: set<CodeSegment>) {
    forall a | a in m :: m[a] in live && m[a].start() == a
  }

  /** Only fixed-destination blocks use the slots, and only for their successors. */
  ghost predicate SlotsLinked(f: FixedDestinationInfo, successors: map<u64, CodeSegment>, fixed: bool) {
    && f.Shaped()
    && (f.next[0] != null ==> fixed && Filed(successors, f.next[0]))
    && (f.next[1] != null ==> fixed && Filed(successors, f.next[1]))
  }

  /** Only variable-destination blocks use the vectors, for distinct successors. */
  ghost predicate TableLinked(v: VariableDestinationInfo, successors: map<u64, CodeSegment>, fixed: bool) {
    && v.Parallel()
    && (fixed ==> v.next == [])
    && (forall i | 0 <= i < |v.next| :: Filed(successors, v.next[i]))
    && (forall i, j | 0 <= i < j < |v.next| :: v.next[i] != v.next[j])
  }

  /** What segment `s` alone must satisfy: its edges lead to segments of the graph, filed under
      their own start addresses, and everything it caches is one of its successors. */
  ghost predicate NodeLinked(g: Graph, s: CodeSegment)
    requires s in g
  {
    && EdgesInside(g[s].successors, g.Keys)
    && EdgesInside(g[s].predecessors, g.Keys)
    && SlotsLinked(g[s].fixedInfo, g[s].successors, s.Fixed())
    && TableLinked(g[s].variableInfo, g[s].successors, s.Fixed())
  }

  ghost predicate UniqueStarts(live: set<CodeSegment>) {
    forall s, t {:trigger OneStart(s, t)} | s in live && t in live :: OneStart(s, t)
  }

  ghost predicate OneStart(s: CodeSegment, t: CodeSegment) {
    s.start() == t.start() ==> s == t
  }

  /** Successor edges are mirrored by predecessor edges. */
  ghost predicate Mirrored(g: Graph, s: CodeSegment, t: CodeSegment)
    requires s in g && t in g
  {
    g[s].Succ(t) <==> g[t].Pred(s)
  }

  /** The linking invariant: one segment per start address, nothing dangling, and successor
      edges mirrored by predecessor edges. */
  ghost predicate Linked(g: Graph) {
    && UniqueStarts(g.Keys)
    && (forall s {:trigger NodeLinked(g, s)} | s in g :: NodeLinked(g, s))
    && (forall s, t {:trigger Mirrored(g, s, t)} | s in g && t in g :: Mirrored(g, s, t))
  }

  /** Inserting in a map keeps a value that is already there. */
  function Inserted<K, V>(m: map<K, V>, k: K, v: V): map<K, V> {
    if k in m then m else m[k := v]
  }

  ghost predicate CanAdd(g: Graph, s: CodeSegment)
    requires s in g && g[s].fixedInfo.Shaped()
  {
    s.Fixed() ==> g[s].fixedInfo.HasRoom()
  }

  /** Table `v` lists `t` behind what `before` lists and, if its block is compiled, finds the current code of all. */
  ghost predicate ListsToo(g: Graph, before: VariableDestinationInfo, t: CodeSegment, compiled: bool,
                           v: VariableDestinationInfo) {
    && v.next == before.next + [t] && v.nextStart == before.nextStart + [t.start()]
    && v.nextCount == before.nextCount + [1] && |v.nextJit| == |v.next| && |before.nextJit| == |before.next|
    && forall i | 0 <= i < |v.next| ::
         && v.next[i] in g
         && v.nextJit[i] == if compiled || i == |before.next| then g[v.next[i]].jit else before.nextJit[i]
  }

  /** The lookup vectors of `s` after it learns of successor `t`. */
  ghost function AddedTable(g: Graph, s: CodeSegment, t: CodeSegment): VariableDestinationInfo
    requires s in g && t in g && NodeLinked(g, s)
  {
    var n := g[s];
    if s.Fixed() || t.start() in n.successors then n.variableInfo
    else
      var v := n.variableInfo.Appended(t, g[t].jit);
      if n.jit.Some? then
        assert forall x | x in v.next :: x == t || x in n.variableInfo.next;
        v.Synced(g)
      else v
  }

  /** The node of `s` after it learns of successor `t`. */
  ghost function AddedNode(g: Graph, s: CodeSegment, t: CodeSegment): Node
    requires s in g && t in g && NodeLinked(g, s) && CanAdd(g, s)
  {
    var n := g[s];
    n.(fixedInfo := if s.Fixed() then n.fixedInfo.Added(t) else n.fixedInfo,
       variableInfo := AddedTable(g, s, t),
       successors := Inserted(n.successors, t.start(), t))
  }

  /** The graph after `s` learns of successor `t`; `s` and `t` may be the same segment. */
  ghost function AddEdge(g: Graph, s: CodeSegment, t: CodeSegment): (r: Graph)
    requires s in g && t in g && NodeLinked(g, s) && CanAdd(g, s)
    ensures r.Keys == g.Keys
  {
    var g1 := g[s := AddedNode(g, s, t)];
    g1[t := g1[t].(predecessors := Inserted(g[t].predecessors, s.start(), s))]
  }

  /** What is left of node `n` of segment `s` once its successor `t` is gone. */
  ghost function DropSuccessor(s: CodeSegment, n: Node, t: CodeSegment): Node
    requires n.fixedInfo.Shaped()
  {
    n.(fixedInfo := if s.Fixed() then n.fixedInfo.Without(t) else n.fixedInfo,
       variableInfo := if s.Fixed() then n.variableInfo else NO_DESTINATIONS,
       successors := n.successors - {t.start()})
  }

  /** The node of `s` once its lookup table has been refreshed. */
  ghost function Patched(g: Graph, s: CodeSegment): Node
    requires s in g && forall t | t in g[s].variableInfo.next :: t in g
  {
    if g[s].jit.None? then g[s] else g[s].(variableInfo := g[s].variableInfo.Synced(g))
  }

  ghost predicate TablesInside(g: Graph) {
    forall s, t {:trigger t in g[s].variableInfo.next} | s in g && t in g[s].variableInfo.next :: t in g
  }

  ghost predicate TablesParallel(g: Graph) {
    forall s {:trigger g[s].variableInfo.Parallel()} | s in g :: g[s].variableInfo.Parallel()
  }

  /** The graph after the lookup tables of all predecessors of `s` have been refreshed. */
  ghost function PredecessorsPatched(g: Graph, s: CodeSegment): (r: Graph)
    requires s in g && TablesInside(g)
    ensures r.Keys == g.Keys
  {
    map x | x in g :: if g[s].Pred(x) then Patched(g, x) else g[x]
  }

  /** The graph after the code of `s` is published: its own lookup table is refreshed, then those of
      its predecessors. */
  ghost function Published(g: Graph, s: CodeSegment): (r: Graph)
    requires s in g && TablesInside(g)
    ensures r.Keys == g.Keys
  {
    var g2 := g[s := Patched(g, s)];
    assert forall x | x in g :: g2[x].variableInfo.next == g[x].variableInfo.next;
    PredecessorsPatched(g2, s)
  }

  /** The graph after `s` is compiled to `j`: with chaining, its own lookup table and those of its
      predecessors are refreshed. */
  ghost function Compiled(g: Graph, s: CodeSegment, j: JitBlock, chaining: bool): (r: Graph)
    requires s in g && TablesInside(g)
    ensures r.Keys == g.Keys
  {
    var g1 := g[s := g[s].(jit := Some(j))];
    if chaining then Published(g1, s) else g1
  }

  ghost predicate AllShaped(g: Graph) {
    forall s {:trigger g[s].fixedInfo.Shaped()} | s in g :: g[s].fixedInfo.Shaped()
  }

  /** The graph after every predecessor of `t` has dropped it. */
  ghost function DroppedByPredecessors(g: Graph, t: CodeSegment): (r: Graph)
    requires t in g && AllShaped(g)
    ensures r.Keys == g.Keys
  {
    map s | s in g :: if g[t].Pred(s) then DropSuccessor(s, g[s], t) else g[s]
  }

  /** The graph after every segment of `successors` has dropped its predecessor `t`. */
  ghost function DroppedBySuccessors(g: Graph, successors: map<u64, CodeSegment>, t: CodeSegment): (r: Graph)
    ensures r.Keys == g.Keys
  {
    map s | s in g ::
      if Filed(successors, s) then g[s].(predecessors := g[s].predecessors - {t.start()}) else g[s]
  }

  /** The graph after `t` is unlinked from its neighbours and leaves. */
  ghost function Unlink(g: Graph, t: CodeSegment): (r: Graph)
    requires t in g && AllShaped(g)
    ensures r.Keys == g.Keys - {t}
  {
    var g1 := DroppedByPredecessors(g, t);
    DroppedBySuccessors(g1 - {t}, g1[t].successors, t)
  }

  /** The compilation threshold after `visits` visits that came too early. */
  ghost function Threshold(visits: nat): nat {
    if visits == 0 then JIT_THRESHOLD else Threshold(visits - 1) / 2
  }

  function Pow2(k: nat): (p: nat)
    ensures p > 0
  {
    if k == 0 then 1 else 2 * Pow2(k - 1)
  }

  /** The threshold after k early visits is 1024 / 2^k. */
  lemma {:induction false} ThresholdIs(k: nat)
    ensures Threshold(k) == JIT_THRESHOLD / Pow2(k)
  {
    if k > 0 {
      ThresholdIs(k - 1);
      HalfOfQuotient(JIT_THRESHOLD, Pow2(k - 1));
    }
  }

  lemma HalfOfQuotient(n: nat, p: nat)
    requires p > 0
    ensures (n / p) / 2 == n / (2 * p)
  {
    var q, r := n / p, n % p;
    assert n == q * p + r;
    assert q == 2 * (q / 2) + q % 2;
    assert n == (q / 2) * (2 * p) + ((q % 2) * p + r);
    assert (q % 2) * p <= p;
    QuotientIs(n, 2 * p, q / 2, (q % 2) * p + r);
  }

  /** From the 11th early visit on the threshold is 0, and a segment interpreted at most once per
      visit falls behind its threshold only up to its 8th interpretation. */
  lemma {:induction false} ThresholdRunsOut(visits: nat, calls: nat)
    requires calls <= visits
    ensures visits >= 11 ==> Threshold(visits) == 0
    ensures calls < Threshold(visits) ==> calls < 8
  {
    if visits > 11 {
      ThresholdRunsOut(visits - 1, 0);
    } else if visits >= 8 {
      assert Threshold(4) == 64;
      assert Threshold(8) == 4;
      assert Threshold(11) == 0;
    }
  }

  /** What unlinking `t` relies on: its edges lead to other segments of the graph, or to itself
      through an edge that its predecessors' walk removes. */
  ghost predicate Detachable(g: Graph, t: CodeSegment)
    requires t in g
  {
    && AllShaped(g)
    && EdgesInside(g[t].predecessors, g.Keys)
    && EdgesInside(DroppedByPredecessors(g, t)[t].successors, g.Keys - {t})
  }

  function OrNothing(s: CodeSegment?): seq<CodeSegment> {
    if s == null then [] else [s]
  }

  /** How far a segment is on its way to being compiled. `visits` counts the visits of the compilation
      queue up to the attempt, `attempts` the calls of the compiler, and `coldCalls` how often the block
      was interpreted before the attempt. */
  datatype Heat = Heat(attempted: bool, compiled: bool, calls: nat, threshold: nat,
                       visits: nat, attempts: nat, coldCalls: nat)
  {
    /** In a process with a compiler: it is called at most once for the block, by the 12th visit, and the
        block is interpreted at most 8 times before that. */
    ghost predicate Warm() {
      && attempts == (if attempted then 1 else 0)
      && coldCalls <= 8 && visits <= 12
      && (!attempted ==> !compiled && visits <= 11 && threshold == Threshold(visits) && calls == coldCalls <= visits)
    }

    /** The compilation queue has visited the segment since it was last interpreted. */
    ghost predicate Checked() {
      attempted || (calls < visits && calls < 8)
    }
  }

  /** What `n` visits of the compilation queue make of `before`: they are counted while they come too early, and
      the first that does not is the attempt. */
  ghost predicate Visited(before: Heat, n: nat, after: Heat) {
    && after.calls == before.calls && after.coldCalls == before.coldCalls && (n == 0 ==> after == before)
    && (after.attempted <==> before.attempted || (n > 0 && before.calls >= Threshold(before.visits + n - 1)))
    && (!after.attempted ==> after.visits == before.visits + n)
  }

  lemma VisitedAgain(before: Heat, n: nat, middle: Heat, after: Heat)
    requires Visited(before, n, middle) && Visited(middle, 1, after)
    ensures Visited(before, n + 1, after)
  {
    assert n > 0 ==> Threshold(before.visits + n) <= Threshold(before.visits + n - 1);
  }

  lemma VisitedIsChecked(before: Heat, n: nat, after: Heat)
    requires before.Warm() && Visited(before, n, after) && n > 0
    ensures after.Checked()
  {
    if !after.attempted { ThresholdRunsOut(before.visits + n - 1, before.calls); }
  }

  class CodeSegment {
    const block: BasicBlock
    var jitBasicBlock: Option<JitBlock>
    var fixedInfo: FixedDestinationInfo
    var variableInfo: VariableDestinationInfo
    var ret: CodeSegment?
    var compilationAttempted: bool
    var calls: nat
    var callsForCompilation: nat
    var successors: map<u64, CodeSegment>
    var predecessors: map<u64, CodeSegment>
    /** Counters of Heat. */
    ghost var visits: nat
    ghost var attempts: nat
    ghost var coldCalls: nat

    constructor (block: BasicBlock)
      ensures this.block == block && ToNode() == EMPTY_NODE
      ensures ret == null && !compilationAttempted
      ensures calls == 0 && callsForCompilation == JIT_THRESHOLD && Warm()
    {
      this.block := block;
      jitBasicBlock := None;
      fixedInfo := FixedDestinationInfo([null, null], [0, 0]);
      variableInfo := NO_DESTINATIONS;
      ret := null;
      compilationAttempted := false;
      calls, callsForCompilation := 0, JIT_THRESHOLD;
      visits, attempts, coldCalls := 0, 0, 0;
      successors, predecessors := map[], map[];
    }

    function start(): u64 { block.start }

    predicate Fixed() { block.Fixed() }

    ghost function ToNode(): Node
      reads this`fixedInfo, this`variableInfo, this`successors, this`predecessors, this`jitBasicBlock
    {
      Node(fixedInfo, variableInfo, successors, predecessors, jitBasicBlock)
    }

    ghost function ToHeat(): Heat
      reads this`compilationAttempted, this`jitBasicBlock, this`calls, this`callsForCompilation
      reads this`visits, this`attempts, this`coldCalls
    {
      Heat(compilationAttempted, jitBasicBlock.Some?, calls, callsForCompilation, visits, attempts, coldCalls)
    }

    ghost predicate Warm()
      reads this`compilationAttempted, this`jitBasicBlock, this`calls, this`callsForCompilation
      reads this`visits, this`attempts, this`coldCalls
    {
      ToHeat().Warm()
    }

    /** Not run, visited or given a return so far. */
    ghost predicate New()
      reads this`compilationAttempted, this`jitBasicBlock, this`calls, this`callsForCompilation
      reads this`visits, this`attempts, this`coldCalls, this`ret
    {
      Warm() && ret == null && !compilationAttempted
    }

    /** Lookup in the caches; a hit in the two-slot cache reorders it by frequency: the segment found is counted
        once more, and moves to the front if that makes it the busier one. */
    method FindNext(address: u64) returns (next: CodeSegment?)
      requires fixedInfo.Shaped()
      modifies this`fixedInfo
      ensures fixedInfo.Shaped()
      ensures Fixed() && next != null ==>
        var f, c := old(fixedInfo).next, old(fixedInfo).nextCount;
        && next.start() == address && f[0] != null
        && if f[0].start() == address
           then next == f[0] && fixedInfo.next == f && fixedInfo.nextCount == [c[0] + 1, c[1]]
           else if c[1] + 1 > c[0]
           then next == f[1] && fixedInfo.next == [f[1], f[0]] && fixedInfo.nextCount == [c[1] + 1, c[0]]
           else next == f[1] && fixedInfo.next == f && fixedInfo.nextCount == [c[0], c[1] + 1]
      ensures Fixed() && next == null ==>
        var f := old(fixedInfo).next;
        f[0] == null || (f[0].start() != address && (f[1] == null || f[1].start() != address))
      ensures Fixed() ==> var i := old(fixedInfo).HitSlot(address);
        if i < 2 then next == old(fixedInfo).next[i] && fixedInfo == old(fixedInfo).Touched(i)
        else next == null && fixedInfo == old(fixedInfo)
      ensures !Fixed() ==> fixedInfo == old(fixedInfo)
      ensures !Fixed() ==> next == (if address in successors then successors[address] else null)
    {
      if !Fixed() {
        return if address in successors then successors[address] else null;
      }
      var i := 0;
      while i < |fixedInfo.next|
        invariant 0 <= i <= 2 && fixedInfo == old(fixedInfo)
        invariant forall j | 0 <= j < i :: fixedInfo.next[j] != null && fixedInfo.next[j].start() != address
      {
        var candidate := fixedInfo.next[i];
        if candidate == null { return null; }
        if candidate.start() == address {
          var count := fixedInfo.nextCount;
          count := count[i := count[i] + 1];
          fixedInfo := fixedInfo.(nextCount := count);
          if i > 0 && count[i] > count[i-1] {
            fixedInfo := FixedDestinationInfo(
              fixedInfo.next[i := fixedInfo.next[i-1]][i-1 := candidate],
              count[i := count[i-1]][i-1 := count[i]]);
          }
          return candidate;
        }
        i := i + 1;
      }
      return null;
    }

    /** Refreshes the table that compiled code searches for its next block. */
    method SyncBlockLookupTable(ghost g: Graph)
      requires variableInfo.Parallel()
      requires forall t | t in variableInfo.next :: t in g && t.jitBasicBlock == g[t].jit
      modifies this`variableInfo
      ensures variableInfo == if jitBasicBlock.None? then old(variableInfo) else old(variableInfo).Synced(g)
      ensures variableInfo == old(variableInfo).(nextJit := variableInfo.nextJit) && variableInfo.Parallel()
      ensures if jitBasicBlock.None? then variableInfo == old(variableInfo)
        else forall i | 0 <= i < |variableInfo.next| :: variableInfo.nextJit[i] == variableInfo.next[i].jitBasicBlock
    {
      if jitBasicBlock.None? { return; }
      var i := 0;
      while i < |variableInfo.next|
        invariant 0 <= i <= |variableInfo.next|
        invariant variableInfo == old(variableInfo).(nextJit := variableInfo.nextJit)
        invariant |variableInfo.nextJit| == |variableInfo.next|
        invariant forall j | 0 <= j < i :: variableInfo.nextJit[j] == variableInfo.next[j].jitBasicBlock
      {
        variableInfo := variableInfo.(nextJit := variableInfo.nextJit[i := variableInfo.next[i].jitBasicBlock]);
        i := i + 1;
      }
    }

    /** Stores `other` in the first empty slot; fails when both are taken. */
    method AddToSlots(other: CodeSegment) returns (foundSlot: bool)
      requires fixedInfo.Shaped()
      modifies this`fixedInfo
      ensures foundSlot == old(fixedInfo).HasRoom()
      ensures fixedInfo == if foundSlot then old(fixedInfo).Added(other) else old(fixedInfo)
      ensures foundSlot ==>
        var f, c := old(fixedInfo).next, old(fixedInfo).nextCount;
        && fixedInfo.next == (if f[0] == null then [other, f[1]] else [f[0], other])
        && fixedInfo.nextCount == (if f[0] == null then [1, c[1]] else [c[0], 1])
    {
      var firstAvailableSlot := 1;
      foundSlot := false;
      for i := 0 to 2
        invariant forall j | 0 <= j < i :: fixedInfo.next[j] != null
        invariant !foundSlot && fixedInfo == old(fixedInfo)
      {
        if fixedInfo.next[i] == null {
          firstAvailableSlot, foundSlot := i, true;
          break;
        }
      }
      if foundSlot {
        fixedInfo := FixedDestinationInfo(fixedInfo.next[firstAvailableSlot := other],
                                          fixedInfo.nextCount[firstAvailableSlot := 1]);
      }
    }

    /** Files `other` under its start address, and in the lookup vectors if it is new there.
        `g` is the graph as it was before the two-slot cache took its share. */
    method AddToTable(other: CodeSegment, ghost g: Graph)
      requires this in g && other in g && NodeLinked(g, this)
      requires variableInfo == g[this].variableInfo && successors == g[this].successors
      requires forall t | t in g :: t.jitBasicBlock == g[t].jit
      modifies this`variableInfo, this`successors
      ensures variableInfo == AddedTable(g, this, other)
      ensures successors == Inserted(g[this].successors, other.start(), other)
      ensures if !Fixed() && old(other.start() !in successors) then
          ListsToo(g, g[this].variableInfo, other, jitBasicBlock.Some?, variableInfo)
        else variableInfo == old(variableInfo)
    {
      if other.start() !in successors {
        successors := successors[other.start() := other];
        if !Fixed() {
          ghost var known := variableInfo.next;
          variableInfo := variableInfo.Appended(other, other.jitBasicBlock);
          assert forall t | t in variableInfo.next :: t == other || t in known;
          SyncBlockLookupTable(g);
        }
      }
    }

    /** This block's half of a new edge. */
    method Store(other: CodeSegment, ghost g: Graph) returns (ok: bool)
      requires this in g && other in g && NodeLinked(g, this) && ToNode() == g[this]
      requires forall t | t in g :: t.jitBasicBlock == g[t].jit
      modifies this`fixedInfo, this`variableInfo, this`successors
      ensures ok == CanAdd(g, this) && ToNode() == if ok then AddedNode(g, this, other) else g[this]
      ensures ok <==> !Fixed() || g[this].fixedInfo.next[0] == null || g[this].fixedInfo.next[1] == null
      ensures ok && Fixed() ==>
        var f, c := g[this].fixedInfo.next, g[this].fixedInfo.nextCount;
        && fixedInfo.next == (if f[0] == null then [other, f[1]] else [f[0], other])
        && fixedInfo.nextCount == (if f[0] == null then [1, c[1]] else [c[0], 1])
      ensures if ok && !Fixed() && other.start() !in g[this].successors then
          ListsToo(g, g[this].variableInfo, other, jitBasicBlock.Some?, variableInfo)
        else variableInfo == old(variableInfo)
    {
      ok := true;
      if Fixed() {
        ok := AddToSlots(other);
        if !ok { return; }
      }
      AddToTable(other, g);
      assert ToNode() == AddedNode(g, this, other);
    }

    /** Records that control went from this block to `other`. Fails, changing nothing, exactly
        when both slots of a fixed-destination block are taken. */
    method AddSuccessor(other: CodeSegment, ghost g: Graph) returns (ok: bool)
      requires this in g && other in g && Pictured(g) && NodeLinked(g, this)
      modifies this`fixedInfo, this`variableInfo, this`successors, other`predecessors
      ensures ok == CanAdd(g, this) && Pictured(if ok then AddEdge(g, this, other) else g)
      ensures ok <==> !Fixed() || g[this].fixedInfo.next[0] == null || g[this].fixedInfo.next[1] == null
      ensures ok && Fixed() ==>
        var f, c := g[this].fixedInfo.next, g[this].fixedInfo.nextCount;
        && fixedInfo.next == (if f[0] == null then [other, f[1]] else [f[0], other])
        && fixedInfo.nextCount == (if f[0] == null then [1, c[1]] else [c[0], 1])
      ensures !ok || !Fixed() ==> fixedInfo == g[this].fixedInfo
      ensures if ok && !Fixed() && other.start() !in g[this].successors then
          ListsToo(g, g[this].variableInfo, other, jitBasicBlock.Some?, variableInfo)
        else variableInfo == g[this].variableInfo
      ensures successors ==
        if ok && other.start() !in g[this].successors then g[this].successors[other.start() := other]
        else g[this].successors
      ensures other.predecessors ==
        if ok && start() !in g[other].predecessors then g[other].predecessors[start() := this]
        else g[other].predecessors
    {
      assert ToNode() == g[this] && other.ToNode() == g[other];
      forall t | t in g ensures t.jitBasicBlock == g[t].jit { assert t.ToNode() == g[t]; }
      ok := Store(other, g);
      if !ok { return; }
      ghost var mine := AddedNode(g, this, other);
      if start() !in other.predecessors { other.predecessors := other.predecessors[start() := this]; }
      EdgeAdded(g, this, other, mine);
    }

    /** Records where the call that ends this block returns to; fails when that changed. */
    method AddReturn(other: CodeSegment) returns (ok: bool)
      modifies this`ret
      ensures ok == ((old(ret) == null || old(ret) == other) && other.start() == block.end)
      ensures ret == if old(ret) == null then other else old(ret)
    {
      if ret != null && ret != other { return false; }
      ret := other;
      ok := other.start() == block.end;
    }

    method OnCpuCall()
      modifies this`calls, this`coldCalls
      ensures calls == old(calls) + 1
      ensures old(Warm() && ToHeat().Checked()) ==> Warm()
    {
      calls := calls + 1;
      if !compilationAttempted { coldCalls := coldCalls + 1; }
    }

    /** Refreshes the lookup table of compiled code, and of nothing else. */
    method TryPatch(ghost g: Graph)
      requires variableInfo.Parallel() && this in g && Pictured(g) && TablesInside(g)
      modifies this`variableInfo
      ensures ToNode() == Patched(g, this)
      ensures variableInfo == old(variableInfo).(nextJit := variableInfo.nextJit) && variableInfo.Parallel()
      ensures if jitBasicBlock.None? then variableInfo == old(variableInfo)
        else forall i | 0 <= i < |variableInfo.next| :: variableInfo.nextJit[i] == variableInfo.next[i].jitBasicBlock
    {
      assert ToNode() == g[this];
      forall t | t in variableInfo.next ensures t in g && t.jitBasicBlock == g[t].jit {
        assert t.ToNode() == g[t];
      }
      SyncBlockLookupTable(g);
    }

    /** Refreshes the lookup tables of all predecessors. */
    method PatchPredecessors(ghost g: Graph)
      requires this in g && Pictured(g) && TablesInside(g) && TablesParallel(g)
      requires EdgesInside(g[this].predecessors, g.Keys)
      modifies g.Keys`variableInfo
      ensures Pictured(PredecessorsPatched(g, this))
    {
      ghost var after := PredecessorsPatched(g, this);
      assert ToNode() == g[this];
      var todo := predecessors.Keys;
      while todo != {}
        invariant todo <= predecessors.Keys && predecessors == g[this].predecessors
        invariant forall s | s in g ::
          s.ToNode() == if g[this].Pred(s) && s.start() !in todo then after[s] else g[s]
      {
        var a :| a in todo;
        ghost var p := predecessors[a];
        assert p.ToNode() == g[p];
        forall t | t in g ensures t.jitBasicBlock == g[t].jit { assert t.ToNode() == g[t] || t.ToNode() == after[t]; }
        predecessors[a].SyncBlockLookupTable(g);
        todo := todo - {a};
      }
    }

    /** Queues the segments this one may continue with. */
    method PushFollowers(queue: CompilationQueue)
      requires fixedInfo.Shaped()
      modifies queue
      ensures queue.queue == old(queue.queue) + OrNothing(fixedInfo.next[0]) + OrNothing(fixedInfo.next[1])
                             + variableInfo.next + OrNothing(ret)
    {
      if fixedInfo.next[0] != null { queue.Push(fixedInfo.next[0]); }
      if fixedInfo.next[1] != null { queue.Push(fixedInfo.next[1]); }
      ghost var before := queue.queue;
      for i := 0 to |variableInfo.next|
        invariant queue.queue == before + variableInfo.next[..i]
      {
        queue.Push(variableInfo.next[i]);
      }
      if ret != null { queue.Push(ret); }
    }

    method Publish(ghost g: Graph)
      requires this in g && Pictured(g) && TablesInside(g) && TablesParallel(g)
      requires EdgesInside(g[this].predecessors, g.Keys)
      modifies g.Keys`variableInfo
      ensures Pictured(Published(g, this))
    {
      assert ToNode() == g[this];
      TryPatch(g);
      ghost var g2 := g[this := Patched(g, this)];
      assert forall x | x in g :: g2[x].variableInfo.next == g[x].variableInfo.next;
      PatchPredecessors(g2);
    }

    /** Hands the block to the compiler and, if that works, publishes its code to lookup tables. */
    method Compile(jit: Jit, ghost g: Graph) returns (ghost h: Graph)
      requires this in g && Pictured(g) && TablesInside(g) && TablesParallel(g)
      requires EdgesInside(g[this].predecessors, g.Keys) && jitBasicBlock.None?
      modifies this`jitBasicBlock, g.Keys`variableInfo
      ensures var j := jit.compile(block);
        h == if j.Some? then Compiled(g, this, j.value, jit.chaining) else g
      ensures Pictured(h) && jitBasicBlock == jit.compile(block)
      ensures variableInfo.next == g[this].variableInfo.next
      ensures if jitBasicBlock.Some? && jit.chaining
        then forall s | s in g && (s == this || g[this].Pred(s)) :: TableFresh(h, s)
        else forall s | s in g && s in h :: h[s].variableInfo == g[s].variableInfo
    {
      assert ToNode() == g[this];
      jitBasicBlock := jit.compile(block);
      h := g;
      if jitBasicBlock.Some? {
        ghost var g1 := g[this := g[this].(jit := jitBasicBlock)];
        h := g1;
        if jit.chaining {
          Publish(g1);
          h := Published(g1, this);
        }
      }
      assert ToNode() == h[this];
    }

    /** A visit that comes too early halves the threshold. */
    method Wait()
      requires Warm() && calls < callsForCompilation
      modifies this`callsForCompilation, this`visits
      ensures Warm() && ToHeat().Checked() && callsForCompilation == old(callsForCompilation) / 2
      ensures visits == if compilationAttempted then old(visits) else old(visits) + 1
    {
      ThresholdRunsOut(visits, if calls <= visits then calls else 0);
      callsForCompilation := callsForCompilation / 2;
      if !compilationAttempted { visits := visits + 1; }
    }

    /** The attempt to compile, after which the queue goes on to the followers. */
    method Attempt(jit: Jit, queue: CompilationQueue, ghost g: Graph) returns (ghost h: Graph)
      requires this in g && Pictured(g) && TablesInside(g) && TablesParallel(g)
      requires EdgesInside(g[this].predecessors, g.Keys) && fixedInfo.Shaped()
      requires jitBasicBlock.None? && !compilationAttempted
      modifies this`compilationAttempted, this`jitBasicBlock, this`visits, this`attempts
      modifies g.Keys`variableInfo, queue
      ensures compilationAttempted && visits == old(visits) + 1 && attempts == old(attempts) + 1
      ensures Pictured(h) && jitBasicBlock == jit.compile(block)
      ensures variableInfo.next == g[this].variableInfo.next
      ensures h == (var j := jit.compile(block);
                    if j.Some? then Compiled(g, this, j.value, jit.chaining) else g)
      ensures queue.queue == old(queue.queue) + OrNothing(fixedInfo.next[0]) + OrNothing(fixedInfo.next[1])
                             + variableInfo.next + OrNothing(ret)
    {
      h := Compile(jit, g);
      label Compiled:
      visits, attempts, compilationAttempted := visits + 1, attempts + 1, true;
      PushFollowers(queue);
      forall s | s in h ensures s.ToNode() == h[s] { assert old@Compiled(s.ToNode()) == h[s]; }
    }

    /** One visit of the compilation queue: too early, or too late, or the one attempt to compile. */
    method TryCompile(jit: Jit, queue: CompilationQueue, ghost g: Graph) returns (ghost h: Graph)
      requires this in g && Pictured(g) && TablesInside(g) && TablesParallel(g)
      requires EdgesInside(g[this].predecessors, g.Keys) && fixedInfo.Shaped() && Warm()
      modifies this`callsForCompilation, this`compilationAttempted, this`jitBasicBlock
      modifies this`visits, this`attempts, g.Keys`variableInfo, queue
      ensures Warm() && ToHeat().Checked() && Pictured(h) && Visited(old(ToHeat()), 1, ToHeat())
      ensures compilationAttempted <==> old(compilationAttempted) || calls >= old(callsForCompilation)
      ensures callsForCompilation ==
        if calls < old(callsForCompilation) then old(callsForCompilation) / 2 else old(callsForCompilation)
      ensures compilationAttempted == old(compilationAttempted) ==>
        h == g && queue.queue == old(queue.queue) && jitBasicBlock == old(jitBasicBlock)
      ensures compilationAttempted != old(compilationAttempted) ==>
        && h == (var j := jit.compile(block);
                 if j.Some? then Compiled(g, this, j.value, jit.chaining) else g)
        && jitBasicBlock == jit.compile(block) && variableInfo.next == g[this].variableInfo.next
        && queue.queue == old(queue.queue) + OrNothing(fixedInfo.next[0]) + OrNothing(fixedInfo.next[1])
                          + variableInfo.next + OrNothing(ret)
    {
      h := g;
      if calls < callsForCompilation {
        Wait();
        forall s | s in g ensures s.ToNode() == g[s] { assert old(s.ToNode()) == g[s]; }
      } else if !compilationAttempted {
        h := Attempt(jit, queue, g);
      }
    }

    method RemovePredecessor(other: CodeSegment)
      modifies this`predecessors
      ensures predecessors == old(predecessors) - {other.start()}
    {
      predecessors := predecessors - {other.start()};
    }

    /** Forgets `other`: empties its slots, or drops the whole lookup table, and erases the edge. */
    method RemoveSuccessor(other: CodeSegment)
      requires fixedInfo.Shaped()
      modifies this`fixedInfo, this`variableInfo, this`successors
      ensures ToNode() == DropSuccessor(this, old(ToNode()), other)
      ensures fixedInfo.Shaped() && forall i | 0 <= i < 2 ::
        if Fixed() && old(fixedInfo).next[i] == other then fixedInfo.next[i] == null && fixedInfo.nextCount[i] == 0
        else fixedInfo.next[i] == old(fixedInfo).next[i] && fixedInfo.nextCount[i] == old(fixedInfo).nextCount[i]
      ensures if Fixed() then variableInfo == old(variableInfo)
        else variableInfo.next == [] && variableInfo.nextJit == [] && variableInfo.nextStart == []
             && variableInfo.nextCount == []
      ensures successors == old(successors) - {other.start()}
    {
      if Fixed() {
        for i := 0 to 2
          invariant fixedInfo.Shaped() && successors == old(successors) && variableInfo == old(variableInfo)
          invariant forall j | i <= j < 2 ::
            fixedInfo.next[j] == old(fixedInfo).next[j] && fixedInfo.nextCount[j] == old(fixedInfo).nextCount[j]
          invariant forall j | 0 <= j < i ::
            && fixedInfo.next[j] == old(fixedInfo).Without(other).next[j]
            && fixedInfo.nextCount[j] == old(fixedInfo).Without(other).nextCount[j]
        {
          if fixedInfo.next[i] == other {
            fixedInfo := FixedDestinationInfo(fixedInfo.next[i := null], fixedInfo.nextCount[i := 0]);
          }
        }
        assert fixedInfo.next == old(fixedInfo).Without(other).next;
        assert fixedInfo.nextCount == old(fixedInfo).Without(other).nextCount;
      } else {
        variableInfo := NO_DESTINATIONS;
        SyncBlockLookupTable(map[]);
        assert variableInfo.nextJit == [];
      }
      successors := successors - {other.start()};
    }

    method LeavePredecessors(ghost g: Graph)
      requires this in g && Pictured(g) && AllShaped(g)
      requires EdgesInside(predecessors, g.Keys)
      modifies g.Keys`fixedInfo, g.Keys`variableInfo, g.Keys`successors
      ensures var after := DroppedByPredecessors(g, this);
        Pictured(after - {this}) && successors == after[this].successors && fixedInfo.Shaped()
    {
      ghost var after := DroppedByPredecessors(g, this);
      assert ToNode() == g[this];
      var todo := predecessors.Keys;
      while todo != {}
        invariant todo <= predecessors.Keys && predecessors == g[this].predecessors
        invariant forall s | s in g ::
          s.ToNode() == if g[this].Pred(s) && s.start() !in todo then after[s] else g[s]
      {
        var a :| a in todo;
        assert predecessors[a].ToNode() == g[predecessors[a]];
        predecessors[a].RemoveSuccessor(this);
        todo := todo - {a};
      }
      assert ToNode() == after[this];
    }

    method LeaveSuccessors(ghost g: Graph)
      requires this !in g && Pictured(g)
      requires EdgesInside(successors, g.Keys)
      modifies g.Keys`predecessors
      ensures Pictured(DroppedBySuccessors(g, successors, this))
    {
      ghost var after := DroppedBySuccessors(g, successors, this);
      var todo := successors.Keys;
      while todo != {}
        invariant todo <= successors.Keys
        invariant forall s | s in g ::
          s.ToNode() == if Filed(successors, s) && s.start() !in todo then after[s] else g[s]
      {
        var a :| a in todo;
        successors[a].RemovePredecessor(this);
        todo := todo - {a};
      }
    }

    /** Unlinks this segment from every neighbour. Neither walk changes the map it walks: a segment
        that is its own successor has lost that edge before the second walk starts. */
    method RemoveFromCaches(ghost g: Graph)
      requires this in g && Pictured(g) && Detachable(g, this)
      modifies g.Keys`fixedInfo, g.Keys`variableInfo, g.Keys`successors, g.Keys`predecessors, this`jitBasicBlock
      ensures Pictured(Unlink(g, this))
      ensures successors == map[] && predecessors == map[] && jitBasicBlock == None && fixedInfo.Shaped()
    {
      assert ToNode() == g[this];
      LeavePredecessors(g);
      ghost var others := DroppedByPredecessors(g, this) - {this};
      predecessors := map[];
      LeaveSuccessors(others);
      assert Pictured(Unlink(g, this));
      successors := map[];
      jitBasicBlock := None;
    }
  }

  lemma EdgesLeadInside(g: Graph, t: CodeSegment)
    requires Linked(g) && t in g
    ensures Detachable(g, t)
  {
    forall s | s in g ensures g[s].fixedInfo.Shaped() { assert NodeLinked(g, s); }
    assert NodeLinked(g, t) && Mirrored(g, t, t);
  }

  ghost predicate AllWarm(live: set<CodeSegment>)
    reads live`compilationAttempted, live`jitBasicBlock, live`calls, live`callsForCompilation
    reads live`visits, live`attempts, live`coldCalls
  {
    forall s {:trigger s.ToHeat()} | s in live :: s.ToHeat().Warm()
  }

  /** No return edge leads out of the graph. */
  ghost predicate RetsInside(live: set<CodeSegment>)
    reads live`ret
  {
    forall s | s in live :: s.ret != null ==> s.ret in live
  }

  lemma Visitable(g: Graph, s: CodeSegment)
    requires s in g && Pictured(g) && Linked(g) && RetsInside(g.Keys)
    ensures s.fixedInfo.Shaped()
    ensures TablesInside(g) && TablesParallel(g) && EdgesInside(g[s].predecessors, g.Keys)
  {
    TablesStayInside(g);
    assert NodeLinked(g, s) && s.ToNode() == g[s];
  }

  /** Nothing but compiled code and the lookup tables' copies of it differs. */
  ghost predicate SameEdges(g: Graph, h: Graph) {
    && g.Keys == h.Keys
    && forall s {:trigger SameNode(g, h, s)} | s in g :: SameNode(g, h, s)
  }

  ghost predicate SameNode(g: Graph, h: Graph, s: CodeSegment)
    requires s in g && s in h
  {
    && g[s].successors == h[s].successors && g[s].predecessors == h[s].predecessors
    && g[s].fixedInfo == h[s].fixedInfo && g[s].variableInfo.next == h[s].variableInfo.next
  }

  lemma EdgeAdded(g: Graph, s: CodeSegment, t: CodeSegment, n: Node)
    requires s in g && t in g && NodeLinked(g, s) && CanAdd(g, s) && n == AddedNode(g, s, t)
    requires forall x | x in g && x != s && x != t :: x.ToNode() == g[x]
    requires var p := Inserted(g[t].predecessors, s.start(), s);
      if s == t then s.ToNode() == n.(predecessors := p)
      else s.ToNode() == n && t.ToNode() == g[t].(predecessors := p)
    ensures Pictured(AddEdge(g, s, t))
  {}

  /** The worklist of blocks that may be worth compiling. */
  class CompilationQueue {
    var queue: seq<CodeSegment>

    constructor ()
      ensures queue == []
    {
      queue := [];
    }

    method Push(seg: CodeSegment)
      modifies this
      ensures queue == old(queue) + [seg]
    {
      queue := queue + [seg];
    }

    /** Visits `seg` and everything its compilation leads to, along `trail`: first `seg`, then followers of what was
        attempted on the way, and all of these. It terminates on every graph, cyclic or not: a visit either
        shortens the worklist or uses up a segment's only attempt. */
    method Process(jit: Jit, seg: CodeSegment, ghost g: Graph) returns (ghost h: Graph, ghost trail: seq<CodeSegment>)
      requires seg in g && Pictured(g) && Linked(g) && AllWarm(g.Keys) && RetsInside(g.Keys) && MadeBy(g, jit)
      modifies this, g.Keys`callsForCompilation, g.Keys`compilationAttempted, g.Keys`jitBasicBlock
      modifies g.Keys`visits, g.Keys`attempts, g.Keys`variableInfo
      ensures Pictured(h) && Evolved(g, h, jit.chaining) && AllWarm(g.Keys) && MadeBy(h, jit) && queue == []
      ensures trail != [] && trail[0] == seg && forall s {:trigger s.ToHeat()} | s in trail :: s.ToHeat().Checked()
      ensures forall s {:trigger s.ToHeat()} | s in g && s !in trail :: s.ToHeat() == old(s.ToHeat())
      ensures AllShaped(g)
      ensures Round(g, h, jit, FollowersIn(g, Rets(g.Keys)), old(Heats(g.Keys)), Heats(g.Keys), seg, trail, [])
      ensures forall s | s in g && s.compilationAttempted && !old(s.compilationAttempted) ::
        && s in trail && s.fixedInfo.Shaped()
        && forall t: CodeSegment |
             t == s.fixedInfo.next[0] || t == s.fixedInfo.next[1] || t in s.variableInfo.next || t == s.ret ::
             t in trail && (t.compilationAttempted || t.visits > old(t.visits))
    {
      ghost var heats, rets := Heats(g.Keys), Rets(g.Keys);
      h, trail := Rounds(jit, seg, g, heats, rets);
      RetsAre(g.Keys, rets);
      AllFollowed(g, h, jit, rets, heats, Heats(g.Keys), seg, trail);
      AllChecked(g, h, jit, heats, Heats(g.Keys), trail);
    }

    method Rounds(jit: Jit, seg: CodeSegment, ghost g: Graph, ghost heats: map<CodeSegment, Heat>,
                  ghost rets: map<CodeSegment, CodeSegment?>)
      returns (ghost h: Graph, ghost trail: seq<CodeSegment>)
      requires seg in g && Pictured(g) && Linked(g) && AllWarm(g.Keys) && RetsInside(g.Keys) && MadeBy(g, jit)
      requires heats == Heats(g.Keys) && rets == Rets(g.Keys)
      modifies this, g.Keys`callsForCompilation, g.Keys`compilationAttempted, g.Keys`jitBasicBlock
      modifies g.Keys`visits, g.Keys`attempts, g.Keys`variableInfo
      ensures Working(g, h, jit) && queue == [] && AllShaped(g) && forall s | s in g :: s.ret == rets[s]
      ensures Round(g, h, jit, FollowersIn(g, rets), heats, Heats(g.Keys), seg, trail, [])
    {
      Begin(jit, seg, g);
      ghost var now := heats;
      trail, h := [], g;
      while queue != []
        invariant Working(g, h, jit) && now == Heats(g.Keys) && forall s | s in g :: s.ret == rets[s]
        invariant Round(g, h, jit, FollowersIn(g, rets), heats, now, seg, trail, queue)
        decreases Unattempted(now), |queue|
      {
        h, trail, now := Go(jit, g, h, rets, heats, now, seg, trail);
      }
    }

    method Begin(jit: Jit, seg: CodeSegment, ghost g: Graph)
      requires seg in g && Pictured(g) && Linked(g) && AllWarm(g.Keys) && RetsInside(g.Keys) && MadeBy(g, jit)
      modifies this
      ensures queue == [seg] && Working(g, g, jit) && Heats(g.Keys) == old(Heats(g.Keys)) && AllShaped(g)
      ensures Round(g, g, jit, FollowersIn(g, old(Rets(g.Keys))), Heats(g.Keys), Heats(g.Keys), seg, [], [seg])
    {
      queue := [seg];
      assert Heats(g.Keys) == old(Heats(g.Keys));
      TrackedStarts(g, jit, seg);
    }

    /** What holds between two visits. */
    ghost predicate Working(g: Graph, h: Graph, jit: Jit)
      reads this, g.Keys, h.Keys
    {
      && Evolved(g, h, jit.chaining) && MadeBy(h, jit) && Pictured(h) && AllWarm(h.Keys) && RetsInside(h.Keys)
      && (forall s | s in queue :: s in h)
    }

    /** The next visit, and what it means for the trail. */
    method Go(jit: Jit, ghost g: Graph, ghost h: Graph, ghost rets: map<CodeSegment, CodeSegment?>,
              ghost heats: map<CodeSegment, Heat>, ghost was: map<CodeSegment, Heat>, ghost seg: CodeSegment,
              ghost trail: seq<CodeSegment>)
      returns (ghost k: Graph, ghost longer: seq<CodeSegment>, ghost now: map<CodeSegment, Heat>)
      requires queue != [] && Working(g, h, jit) && AllShaped(g) && rets.Keys == g.Keys
      requires forall s | s in g :: s.ret == rets[s]
      requires was == Heats(g.Keys) && Round(g, h, jit, FollowersIn(g, rets), heats, was, seg, trail, queue)
      modifies this, g.Keys`callsForCompilation, g.Keys`compilationAttempted, g.Keys`jitBasicBlock
      modifies g.Keys`visits, g.Keys`attempts, g.Keys`variableInfo
      ensures Working(g, k, jit) && now == Heats(g.Keys) && forall s | s in g :: s.ret == rets[s]
      ensures Round(g, k, jit, FollowersIn(g, rets), heats, now, seg, longer, queue)
      ensures Unattempted(now) < Unattempted(was) || (Unattempted(now) == Unattempted(was) && |queue| < |old(queue)|)
    {
      ghost var before, top := queue, queue[|queue|-1];
      k, now := Step(jit, g, h, was);
      longer := trail + [top];
      FollowSame(g, h, top, rets, jit.chaining);
      RoundGoesOn(g, h, k, jit, FollowersIn(g, rets), heats, was, now, seg, trail, before, queue);
      Shrinks(h, k, jit, was, now, top);
    }

    method Step(jit: Jit, ghost g: Graph, ghost h: Graph, ghost was: map<CodeSegment, Heat>)
      returns (ghost k: Graph, ghost now: map<CodeSegment, Heat>)
      requires queue != [] && Working(g, h, jit) && was == Heats(g.Keys)
      modifies this, g.Keys`callsForCompilation, g.Keys`compilationAttempted, g.Keys`jitBasicBlock
      modifies g.Keys`visits, g.Keys`attempts, g.Keys`variableInfo
      ensures Working(g, k, jit) && now == Heats(g.Keys)
      ensures OneVisit(h, k, jit, was, now, old(queue), queue, old(queue)[|old(queue)|-1].ret)
      ensures forall s | s in g :: s.ret == old(s.ret)
    {
      ghost var seg := queue[|queue|-1];
      Visitable(h, seg);
      CompiledEvolves(g, h, seg, jit);
      FollowersInside(h, seg);
      k, now := Visit(jit, h, was);
    }

    method Visit(jit: Jit, ghost g: Graph, ghost was: map<CodeSegment, Heat>)
      returns (ghost h: Graph, ghost now: map<CodeSegment, Heat>)
      requires queue != [] && Pictured(g) && TablesInside(g) && TablesParallel(g) && AllWarm(g.Keys)
      requires was == Heats(g.Keys)
      requires var seg := queue[|queue|-1];
        seg in g && EdgesInside(g[seg].predecessors, g.Keys) && seg.fixedInfo.Shaped()
      modifies this, g.Keys`callsForCompilation, g.Keys`compilationAttempted, g.Keys`jitBasicBlock
      modifies g.Keys`visits, g.Keys`attempts, g.Keys`variableInfo
      ensures Pictured(h) && AllWarm(g.Keys) && now == Heats(g.Keys)
      ensures OneVisit(g, h, jit, was, now, old(queue), queue, old(queue)[|old(queue)|-1].ret)
      ensures var rest, seg := old(queue)[..|old(queue)|-1], old(queue)[|old(queue)|-1];
        && (h == g || (jit.compile(seg.block).Some?
                       && h == Compiled(g, seg, jit.compile(seg.block).value, jit.chaining)))
      ensures forall s | s in g :: s.ret == old(s.ret)
    {
      ghost var seg := queue[|queue|-1];
      h := Attend(jit, g);
      now := Heats(g.Keys);
      assert seg.ToNode() == h[seg];
      forall s | s in g ensures h[s].jit == s.jitBasicBlock && g[s].jit == old(s.jitBasicBlock) {
        assert s.ToNode() == h[s] && old(s.ToNode()) == g[s];
      }
    }

    method Attend(jit: Jit, ghost g: Graph) returns (ghost h: Graph)
      requires queue != [] && Pictured(g) && TablesInside(g) && TablesParallel(g) && AllWarm(g.Keys)
      requires var seg := queue[|queue|-1];
        seg in g && EdgesInside(g[seg].predecessors, g.Keys) && seg.fixedInfo.Shaped()
      modifies this, g.Keys`callsForCompilation, g.Keys`compilationAttempted, g.Keys`jitBasicBlock
      modifies g.Keys`visits, g.Keys`attempts, g.Keys`variableInfo
      ensures Pictured(h) && AllWarm(g.Keys)
      ensures var rest, seg := old(queue)[..|old(queue)|-1], old(queue)[|old(queue)|-1];
        && (h == g || (jit.compile(seg.block).Some?
                       && h == Compiled(g, seg, jit.compile(seg.block).value, jit.chaining)))
        && Visited(old(seg.ToHeat()), 1, seg.ToHeat()) && g[seg].fixedInfo.Shaped()
        && (if seg.compilationAttempted && !old(seg.compilationAttempted)
            then queue == rest + FollowersOf(g[seg], seg.ret) && seg.jitBasicBlock == jit.compile(seg.block)
            else queue == rest && seg.jitBasicBlock == old(seg.jitBasicBlock))
        && forall s | s in g && s != seg :: s.ToHeat() == old(s.ToHeat()) && s.jitBasicBlock == old(s.jitBasicBlock)
    {
      var seg := queue[|queue|-1];
      assert seg.ToHeat().Warm();
      assert seg.ToNode() == g[seg];
      queue := queue[..|queue|-1];
      h := seg.TryCompile(jit, this, g);
      forall s | s in g && s != seg ensures s.ToHeat() == old(s.ToHeat()) {}
    }
  }

  ghost function Heats(live: set<CodeSegment>): map<CodeSegment, Heat>
    reads live`compilationAttempted, live`jitBasicBlock, live`calls, live`callsForCompilation
    reads live`visits, live`attempts, live`coldCalls
  {
    map s | s in live :: s.ToHeat()
  }

  /** The followers of a segment, in the order in which they are queued. */
  ghost function FollowersOf(n: Node, ret: CodeSegment?): seq<CodeSegment>
    requires n.fixedInfo.Shaped()
  {
    OrNothing(n.fixedInfo.next[0]) + OrNothing(n.fixedInfo.next[1]) + n.variableInfo.next + OrNothing(ret)
  }

  ghost function FollowersIn(g: Graph, rets: map<CodeSegment, CodeSegment?>): map<CodeSegment, seq<CodeSegment>>
    requires AllShaped(g) && rets.Keys == g.Keys
  {
    map s | s in g :: assert g[s].fixedInfo.Shaped(); FollowersOf(g[s], rets[s])
  }

  ghost function Rets(live: set<CodeSegment>): map<CodeSegment, CodeSegment?>
    reads live`ret
  {
    map s | s in live :: s.ret
  }

  /** The segments attempted between `heats` and `now`. */
  ghost function Tried(heats: map<CodeSegment, Heat>, now: map<CodeSegment, Heat>): set<CodeSegment> {
    set s | s in heats && s in now && now[s].attempted && !heats[s].attempted
  }

  lemma RetsAre(live: set<CodeSegment>, rets: map<CodeSegment, CodeSegment?>)
    requires rets.Keys == live && forall s | s in live :: s.ret == rets[s]
    ensures Rets(live) == rets
  {}

  ghost function Unattempted(now: map<CodeSegment, Heat>): set<CodeSegment> {
    set s | s in now && !now[s].attempted
  }

  /** What the visits of `trail` make of segments that had `heats`: they are visited as often as they are on it,
      and code is what the compiler makes of those that were tried. */
  ghost predicate Tracked(g: Graph, k: Graph, jit: Jit, heats: map<CodeSegment, Heat>, now: map<CodeSegment, Heat>,
                          trail: seq<CodeSegment>) {
    && heats.Keys == now.Keys == g.Keys == k.Keys && (forall s | s in trail :: s in g)
    && (forall s | s in g :: Visited(heats[s], multiset(trail)[s], now[s]))
    && (forall s | s in g :: k[s].jit == if s in Tried(heats, now) then jit.compile(s.block) else g[s].jit)
  }

  /** A round of the compilation queue that began with `seg`, when `queue` is still to be visited. */
  ghost predicate Round(g: Graph, k: Graph, jit: Jit, follow: map<CodeSegment, seq<CodeSegment>>,
                        heats: map<CodeSegment, Heat>, now: map<CodeSegment, Heat>, seg: CodeSegment,
                        trail: seq<CodeSegment>, queue: seq<CodeSegment>) {
    Tracked(g, k, jit, heats, now, trail) && OnTrail(follow, Tried(heats, now), seg, trail, queue)
  }

  lemma TrackedStarts(g: Graph, jit: Jit, seg: CodeSegment)
    requires seg in g && Pictured(g) && Linked(g) && RetsInside(g.Keys)
    ensures AllShaped(g) && Round(g, g, jit, FollowersIn(g, Rets(g.Keys)), Heats(g.Keys), Heats(g.Keys), seg, [], [seg])
  {
    forall s | s in g ensures g[s].fixedInfo.Shaped() { assert NodeLinked(g, s); }
  }

  /** The heats and codes after `top` was visited. */
  ghost predicate Moved(h: Graph, k: Graph, jit: Jit, was: map<CodeSegment, Heat>, now: map<CodeSegment, Heat>,
                        top: CodeSegment) {
    && top in h && was.Keys == now.Keys == h.Keys == k.Keys && Visited(was[top], 1, now[top])
    && k[top].jit == (if now[top].attempted && !was[top].attempted then jit.compile(top.block) else h[top].jit)
    && forall s | s in h && s != top :: now[s] == was[s] && k[s].jit == h[s].jit
  }

  lemma Shrinks(h: Graph, k: Graph, jit: Jit, was: map<CodeSegment, Heat>, now: map<CodeSegment, Heat>,
                top: CodeSegment)
    requires Moved(h, k, jit, was, now, top)
    ensures if now[top].attempted && !was[top].attempted then Unattempted(now) < Unattempted(was)
      else Unattempted(now) == Unattempted(was)
  {
    if now[top].attempted && !was[top].attempted { assert top in Unattempted(was) && top !in Unattempted(now); }
  }

  lemma TriedMoves(h: Graph, k: Graph, jit: Jit, heats: map<CodeSegment, Heat>, was: map<CodeSegment, Heat>,
                   now: map<CodeSegment, Heat>, top: CodeSegment)
    requires Moved(h, k, jit, was, now, top) && heats.Keys == h.Keys && (heats[top].attempted ==> was[top].attempted)
    ensures Tried(heats, now) ==
      Tried(heats, was) + (if now[top].attempted && !was[top].attempted then {top} else {})
  {}

  lemma CountsGoOn(heats: map<CodeSegment, Heat>, was: map<CodeSegment, Heat>, now: map<CodeSegment, Heat>,
                   trail: seq<CodeSegment>, top: CodeSegment)
    requires top in heats && heats.Keys == was.Keys == now.Keys
    requires forall s | s in heats :: Visited(heats[s], multiset(trail)[s], was[s])
    requires Visited(was[top], 1, now[top]) && forall s | s in heats && s != top :: now[s] == was[s]
    ensures forall s | s in heats :: Visited(heats[s], multiset(trail + [top])[s], now[s])
  {
    VisitedAgain(heats[top], multiset(trail)[top], was[top], now[top]);
    assert multiset(trail + [top]) == multiset(trail) + multiset{top};
  }

  lemma TrackedOn(g: Graph, h: Graph, k: Graph, jit: Jit, heats: map<CodeSegment, Heat>, was: map<CodeSegment, Heat>,
                  now: map<CodeSegment, Heat>, trail: seq<CodeSegment>, top: CodeSegment)
    requires Tracked(g, h, jit, heats, was, trail) && Moved(h, k, jit, was, now, top)
    ensures Tracked(g, k, jit, heats, now, trail + [top])
  {
    CountsGoOn(heats, was, now, trail, top);
    TriedMoves(h, k, jit, heats, was, now, top);
  }

  lemma RoundGoesOn(g: Graph, h: Graph, k: Graph, jit: Jit, follow: map<CodeSegment, seq<CodeSegment>>,
                    heats: map<CodeSegment, Heat>, was: map<CodeSegment, Heat>, now: map<CodeSegment, Heat>,
                    seg: CodeSegment, trail: seq<CodeSegment>, queue: seq<CodeSegment>, left: seq<CodeSegment>)
    requires queue != [] && Round(g, h, jit, follow, heats, was, seg, trail, queue)
    requires var top := queue[|queue|-1];
      && Moved(h, k, jit, was, now, top) && top in follow
      && left == queue[..|queue|-1] + (if now[top].attempted && !was[top].attempted then follow[top] else [])
    ensures Round(g, k, jit, follow, heats, now, seg, trail + [queue[|queue|-1]], left)
  {
    var top := queue[|queue|-1];
    TrackedOn(g, h, k, jit, heats, was, now, trail, top);
    TriedMoves(h, k, jit, heats, was, now, top);
    TrailGoesOn(follow, Tried(heats, was), seg, trail, queue, Tried(heats, now), left);
  }

  /** A visit of the last segment of `before`, which returns to `ret`; its followers are queued if this was its
      attempt. */
  ghost predicate OneVisit(h: Graph, k: Graph, jit: Jit, was: map<CodeSegment, Heat>, now: map<CodeSegment, Heat>,
                           before: seq<CodeSegment>, after: seq<CodeSegment>, ret: CodeSegment?)
    requires before != []
  {
    var rest, top := before[..|before|-1], before[|before|-1];
    && Moved(h, k, jit, was, now, top) && h[top].fixedInfo.Shaped()
    && after == rest + (if now[top].attempted && !was[top].attempted then FollowersOf(h[top], ret) else [])
  }

  lemma FollowersInside(h: Graph, s: CodeSegment)
    requires s in h && Linked(h) && RetsInside(h.Keys)
    ensures h[s].fixedInfo.Shaped() && forall t | t in FollowersOf(h[s], s.ret) :: t in h
  {
    assert NodeLinked(h, s);
    forall t | t in h[s].variableInfo.next ensures t in h { assert Filed(h[s].successors, t); }
  }

  lemma FollowSame(g: Graph, h: Graph, s: CodeSegment, rets: map<CodeSegment, CodeSegment?>, chaining: bool)
    requires s in g && AllShaped(g) && Evolved(g, h, chaining) && rets.Keys == g.Keys
    ensures h[s].fixedInfo.Shaped() && FollowersOf(h[s], rets[s]) == FollowersIn(g, rets)[s]
  {
    assert SameNode(g, h, s) && g[s].fixedInfo.Shaped();
  }

  /** Segment `t` follows one of the first `n` on the trail that were tried. */
  ghost predicate Reached(follow: map<CodeSegment, seq<CodeSegment>>, tried: set<CodeSegment>,
                          trail: seq<CodeSegment>, n: nat, t: CodeSegment)
    requires n <= |trail|
  {
    exists j | 0 <= j < n :: trail[j] in tried && trail[j] in follow && t in follow[trail[j]]
  }

  /** The visits so far began with `seg` and went on to followers of what was tried; those that were not visited
      are queued, and nothing else is. */
  ghost predicate OnTrail(follow: map<CodeSegment, seq<CodeSegment>>, tried: set<CodeSegment>, seg: CodeSegment,
                          trail: seq<CodeSegment>, queue: seq<CodeSegment>) {
    && (if trail == [] then queue == [seg] && tried == {} else trail[0] == seg)
    && (forall k | 0 < k < |trail| :: Reached(follow, tried, trail, k, trail[k]))
    && (trail != [] ==> forall t | t in queue :: Reached(follow, tried, trail, |trail|, t))
    && (forall s | s in tried :: s in trail && s in follow && forall t | t in follow[s] :: t in trail || t in queue)
  }

  lemma ReachedStill(follow: map<CodeSegment, seq<CodeSegment>>, tried: set<CodeSegment>, trail: seq<CodeSegment>,
                     n: nat, t: CodeSegment, more: set<CodeSegment>, longer: seq<CodeSegment>, m: nat)
    requires n <= |trail| && Reached(follow, tried, trail, n, t)
    requires tried <= more && trail <= longer && n <= m <= |longer|
    ensures Reached(follow, more, longer, m, t)
  {
    var j :| 0 <= j < n && trail[j] in tried && trail[j] in follow && t in follow[trail[j]];
    assert longer[j] == trail[j];
  }

  lemma TrailGoesOn(follow: map<CodeSegment, seq<CodeSegment>>, tried: set<CodeSegment>, seg: CodeSegment,
                    trail: seq<CodeSegment>, queue: seq<CodeSegment>, after: set<CodeSegment>, left: seq<CodeSegment>)
    requires queue != [] && OnTrail(follow, tried, seg, trail, queue)
    requires var top := queue[|queue|-1];
      && top in follow
      && ((after == tried && left == queue[..|queue|-1])
          || (after == tried + {top} && left == queue[..|queue|-1] + follow[top]))
    ensures OnTrail(follow, after, seg, trail + [queue[|queue|-1]], left)
  {
    var top, n := queue[|queue|-1], |trail|;
    var longer := trail + [top];
    forall k | 0 < k <= n ensures Reached(follow, after, longer, k, longer[k]) {
      ReachedStill(follow, tried, trail, k, longer[k], after, longer, k);
    }
    forall t | t in left ensures Reached(follow, after, longer, n + 1, t) {
      if t in queue[..|queue|-1] {
        ReachedStill(follow, tried, trail, n, t, after, longer, n + 1);
      } else {
        assert longer[n] == top;
      }
    }
    TrailCovers(follow, tried, trail, queue, after, left);
  }

  lemma TrailCovers(follow: map<CodeSegment, seq<CodeSegment>>, tried: set<CodeSegment>, trail: seq<CodeSegment>,
                    queue: seq<CodeSegment>, after: set<CodeSegment>, left: seq<CodeSegment>)
    requires queue != []
    requires forall s | s in tried ::
      s in trail && s in follow && forall t | t in follow[s] :: t in trail || t in queue
    requires var top := queue[|queue|-1];
      && top in follow
      && ((after == tried && left == queue[..|queue|-1])
          || (after == tried + {top} && left == queue[..|queue|-1] + follow[top]))
    ensures var longer := trail + [queue[|queue|-1]];
      forall s | s in after ::
        s in longer && s in follow && forall t | t in follow[s] :: t in longer || t in left
  {
    var top := queue[|queue|-1];
    assert forall t | t in queue :: t == top || t in queue[..|queue|-1];
  }

  lemma AllChecked(g: Graph, h: Graph, jit: Jit, heats: map<CodeSegment, Heat>, now: map<CodeSegment, Heat>,
                   trail: seq<CodeSegment>)
    requires Tracked(g, h, jit, heats, now, trail) && now == Heats(g.Keys) && forall s | s in g :: heats[s].Warm()
    ensures forall s {:trigger s.ToHeat()} | s in trail :: s.ToHeat().Checked()
    ensures forall s {:trigger s.ToHeat()} | s in g && s !in trail :: s.ToHeat() == heats[s]
  {
    forall s | s in trail ensures now[s].Checked() { VisitedIsChecked(heats[s], multiset(trail)[s], now[s]); }
    forall s | s in g && s !in trail ensures now[s] == heats[s] {
      assert Visited(heats[s], multiset(trail)[s], now[s]);
    }
  }

  /** Every follower of what was tried was visited. */
  lemma AllFollowed(g: Graph, h: Graph, jit: Jit, rets: map<CodeSegment, CodeSegment?>,
                    heats: map<CodeSegment, Heat>, now: map<CodeSegment, Heat>, seg: CodeSegment,
                    trail: seq<CodeSegment>)
    requires AllShaped(g) && Pictured(h) && Evolved(g, h, jit.chaining) && now == Heats(g.Keys)
    requires rets == Rets(g.Keys) && Round(g, h, jit, FollowersIn(g, rets), heats, now, seg, trail, [])
    ensures forall s | s in g && s.compilationAttempted && !heats[s].attempted ::
      && s in trail && s.fixedInfo.Shaped()
      && forall t: CodeSegment |
           t == s.fixedInfo.next[0] || t == s.fixedInfo.next[1] || t in s.variableInfo.next || t == s.ret ::
           t in trail && (t.compilationAttempted || t.visits > heats[t].visits)
  {
    forall s | s in g && s.compilationAttempted && !heats[s].attempted
      ensures s in trail && s.fixedInfo.Shaped() && forall t | t in FollowersOf(s.ToNode(), s.ret) :: t in trail
    {
      FollowSame(g, h, s, rets, jit.chaining);
      assert s.ToNode() == h[s];
      assert s in Tried(heats, now);
    }
    forall t | t in trail ensures t.compilationAttempted || t.visits > heats[t].visits {
      assert Visited(heats[t], multiset(trail)[t], now[t]);
    }
  }

  lemma TablesStayInside(g: Graph)
    requires Linked(g)
    ensures TablesInside(g) && TablesParallel(g)
  {
    forall s | s in g ensures g[s].variableInfo.Parallel() { assert NodeLinked(g, s); }
    forall s, t | s in g && t in g[s].variableInfo.next ensures t in g {
      assert NodeLinked(g, s);
      assert Filed(g[s].successors, t);
    }
  }

  /** A compiled block's lookup table holds its successors' current code. */
  ghost predicate TableFresh(g: Graph, s: CodeSegment)
    requires s in g
  {
    var v := g[s].variableInfo;
    g[s].jit.Some? && |v.nextJit| == |v.next| ==>
      forall i | 0 <= i < |v.next| :: v.next[i] in g ==> v.nextJit[i] == g[v.next[i]].jit
  }

  ghost predicate TablesFresh(g: Graph) {
    forall s {:trigger TableFresh(g, s)} | s in g :: TableFresh(g, s)
  }

  /** Compiling a block changes nothing but its code and entries of lookup tables. */
  lemma CompiledNode(g: Graph, s: CodeSegment, j: JitBlock, chaining: bool, x: CodeSegment)
    requires s in g && TablesInside(g) && x in g && NodeLinked(g, x)
    ensures var n, r := g[x], Compiled(g, s, j, chaining)[x];
      && r.successors == n.successors && r.predecessors == n.predecessors && r.fixedInfo == n.fixedInfo
      && r.variableInfo == n.variableInfo.(nextJit := r.variableInfo.nextJit)
    ensures NodeLinked(Compiled(g, s, j, chaining), x)
  {}

  lemma CompiledKeepsLinked(g: Graph, s: CodeSegment, j: JitBlock, chaining: bool)
    requires Linked(g) && s in g && TablesInside(g)
    ensures Linked(Compiled(g, s, j, chaining))
  {
    var h := Compiled(g, s, j, chaining);
    forall x | x in h ensures NodeLinked(h, x) { CompiledNode(g, s, j, chaining, x); }
    forall x, y | x in h && y in h ensures Mirrored(h, x, y) {
      assert Mirrored(g, x, y);
      CompiledNode(g, s, j, chaining, x);
      CompiledNode(g, s, j, chaining, y);
    }
  }

  /** With chaining on, compiling a block refreshes every table that lists it. */
  lemma CompiledKeepsFresh(g: Graph, s: CodeSegment, j: JitBlock)
    requires Linked(g) && s in g && TablesInside(g) && TablesFresh(g)
    ensures TablesFresh(Compiled(g, s, j, true))
  {
    var h := Compiled(g, s, j, true);
    forall x | x in h ensures TableFresh(h, x) {
      assert TableFresh(g, x) && NodeLinked(g, x) && Mirrored(g, x, s);
    }
  }

  /** Refreshing a lookup table changes no edge. */
  lemma PatchedEvolves(g: Graph, s: CodeSegment, chaining: bool)
    requires Linked(g) && s in g && TablesInside(g)
    ensures Evolved(g, g[s := Patched(g, s)], chaining)
  {
    var h := g[s := Patched(g, s)];
    forall x | x in h ensures NodeLinked(h, x) && SameNode(g, h, x) { assert NodeLinked(g, x); }
    forall x, y | x in h && y in h ensures Mirrored(h, x, y) { assert Mirrored(g, x, y); }
    if TablesFresh(g) {
      forall x | x in h ensures TableFresh(h, x) { assert TableFresh(g, x) && NodeLinked(g, x); }
    }
  }

  /** What compiling keeps: the edges, the linking invariant and, with chaining, fresh tables. */
  ghost predicate Evolved(g: Graph, h: Graph, chaining: bool) {
    && Linked(h) && SameEdges(g, h)
    && (chaining && TablesFresh(g) ==> TablesFresh(h))
  }

  /** What is compiled is what the compiler makes of the block. */
  ghost predicate MadeBy(g: Graph, jit: Jit) {
    forall s {:trigger g[s]} | s in g && g[s].jit.Some? :: g[s].jit == jit.compile(s.block)
  }

  lemma CompiledEvolves(g0: Graph, g: Graph, s: CodeSegment, jit: Jit)
    requires Evolved(g0, g, jit.chaining) && s in g && TablesInside(g)
    ensures var j := jit.compile(s.block);
      j.Some? ==> Evolved(g0, Compiled(g, s, j.value, jit.chaining), jit.chaining)
    ensures var j := jit.compile(s.block);
      MadeBy(g, jit) && j.Some? ==> MadeBy(Compiled(g, s, j.value, jit.chaining), jit)
  {
    var j := jit.compile(s.block);
    if j.Some? {
      CompiledKeepsLinked(g, s, j.value, jit.chaining);
      if jit.chaining && TablesFresh(g) { CompiledKeepsFresh(g, s, j.value); }
      var h := Compiled(g, s, j.value, jit.chaining);
      forall x | x in g0 ensures SameNode(g0, h, x) {
        assert NodeLinked(g, x) && SameNode(g0, g, x);
        CompiledNode(g, s, j.value, jit.chaining, x);
      }
    }
  }

  const EMPTY_NODE := Node(FixedDestinationInfo([null, null], [0, 0]), NO_DESTINATIONS, map[], map[], None)
}
