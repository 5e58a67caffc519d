/** What the dispatch loop keeps of a process between turns, with and without a compiler, and the steps
    of the loop that touch segments. */
module Upkeep {
  import opened Types
  import opened CodeSegments
  import opened InlineCacheLaws
  import opened IntervalLaws
  import opened Processes
  import opened Dispatch

  ghost predicate Uncompiled(live: set<CodeSegment>)
    reads live`jitBasicBlock
  {
    forall s | s in live :: s.jitBasicBlock.None?
  }

  /** What is compiled is what the compiler makes of the block. */
  ghost predicate AllMade(jit: Jit, live: set<CodeSegment>)
    reads live`jitBasicBlock
  {
    forall s | s in live :: s.jitBasicBlock.Some? ==> s.jitBasicBlock == jit.compile(s.block)
  }

  lemma MadeIs(g: Graph, jit: Jit)
    requires Pictured(g)
    ensures AllMade(jit, g.Keys) <==> MadeBy(g, jit)
  {
    forall s | s in g ensures s.jitBasicBlock == g[s].jit { assert s.ToNode() == g[s]; }
  }

  /** What else holds of the linked segments between turns, with and without a compiler. */
  ghost predicate ModeReady(jit: Option<Jit>, live: set<CodeSegment>)
    reads live`compilationAttempted, live`jitBasicBlock, live`calls, live`callsForCompilation
    reads live`visits, live`attempts, live`coldCalls, live`ret
  {
    if jit.Some? then AllWarm(live) && RetsInside(live) && AllMade(jit.value, live) else Uncompiled(live)
  }

  ghost predicate Ready(p: Process, w: World, jit: Option<Jit>)
    reads p, p.codeSegments, p.codeSegments.Repr, w.graph.Keys, w.owned
  {
    && Good(p, w) && AllDetached(w.owned - w.graph.Keys) && ModeReady(jit, w.graph.Keys)
    && (w.calm ==> jit.None? && Calm(w.graph))
  }

  /** Extending by a known or new segment keeps what else holds. */
  lemma ModeExtends(jit: Option<Jit>, live: set<CodeSegment>, seg: CodeSegment, more: set<CodeSegment>)
    requires ModeReady(jit, live) && (seg in live || seg.New()) && more == live + {seg}
    ensures ModeReady(jit, more)
  {}

  lemma StillReady(w: World, jit: Option<Jit>, seg: CodeSegment?, v: World)
    requires Extends(w, seg, v) && AllDetached(w.owned - w.graph.Keys) && ModeReady(jit, w.graph.Keys)
    requires seg != null ==> seg in w.graph || seg.New()
    ensures AllDetached(v.owned - v.graph.Keys) && ModeReady(jit, v.graph.Keys) && w.graph.Keys <= v.graph.Keys
  {
    assert v.owned - v.graph.Keys <= w.owned - w.graph.Keys;
    if seg == null { assert v.graph.Keys == w.graph.Keys; } else { ModeExtends(jit, w.graph.Keys, seg, v.graph.Keys); }
  }

  ghost function New(known: set<CodeSegment>, seg: CodeSegment?): set<CodeSegment> {
    if seg == null || seg in known then {} else {seg}
  }

  lemma NewsAre(w: World, seg: CodeSegment?, v: World)
    requires Extends(w, seg, v)
    ensures v.graph.Keys == w.graph.Keys + New(w.graph.Keys, seg)
  {}

  /** Fetches the segment for `address`, which starts with `block` if it is new. */
  method FetchReady(p: Process, address: u64, block: Option<BasicBlock>, jit: Option<Jit>, ghost w: World)
    returns (seg: CodeSegment?, ghost v: World)
    requires Ready(p, w, jit) && StartsAt(block, address)
    modifies p`codeSegmentsByAddress, p.codeSegments.Repr
    ensures Ready(p, v, jit) && Extends(w, seg, v) && Onward(w, v)
    ensures seg == null <==> Lost(old(p.codeSegmentsByAddress), w.pieces, address, block)
    ensures seg == null ==> v == w && p.codeSegmentsByAddress == old(p.codeSegmentsByAddress)
    ensures forall s | s in w.graph :: v.graph[s] == w.graph[s]
    ensures seg != null ==>
      && (seg in w.graph || fresh(seg))
      && Provided(old(p.codeSegmentsByAddress), address, block, seg, p.codeSegmentsByAddress)
  {
    seg, v := Fetch(p, address, block, w);
    assert AllDetached(w.owned - w.graph.Keys) && ModeReady(jit, w.graph.Keys);
    StillReady(w, jit, seg, v);
  }

  /** The same, with what was new. */
  method FetchNew(p: Process, address: u64, block: Option<BasicBlock>, jit: Option<Jit>, ghost w: World)
    returns (seg: CodeSegment?, ghost v: World, ghost news: set<CodeSegment>)
    requires Ready(p, w, jit) && StartsAt(block, address)
    modifies p`codeSegmentsByAddress, p.codeSegments.Repr
    ensures Ready(p, v, jit) && v.graph.Keys == w.graph.Keys + news && fresh(news) && Onward(w, v)
    ensures seg == null <==> Lost(old(p.codeSegmentsByAddress), w.pieces, address, block)
    ensures seg == null ==> v == w && p.codeSegmentsByAddress == old(p.codeSegmentsByAddress)
    ensures forall s | s in w.graph :: v.graph[s] == w.graph[s]
    ensures seg != null ==>
      seg in v.graph && Provided(old(p.codeSegmentsByAddress), address, block, seg, p.codeSegmentsByAddress)
  {
    seg, v := FetchReady(p, address, block, jit, w);
    news := New(w.graph.Keys, seg);
    NewsAre(w, seg, v);
  }

  /** Block `s` knows `t` as one of its successors, and has it in a slot if it has fixed destinations. */
  ghost predicate Learned(g: Graph, s: CodeSegment, t: CodeSegment) {
    s in g && g[s].Succ(t) && (s.Fixed() ==> Slotted(g[s], t))
  }

  method LookUpReady(p: Process, current: CodeSegment, rip: u64, jit: Option<Jit>, ghost w: World)
    returns (next: CodeSegment?, ghost v: World)
    requires Ready(p, w, jit) && current in w.graph
    modifies current`fixedInfo
    ensures Ready(p, v, jit) && v == w.(graph := v.graph) && v.graph.Keys == w.graph.Keys
    ensures if next == null then v == w && Misses(w.graph, current, rip) else !Stuck(w.graph, current, rip)
    ensures next != null ==>
      && next.start() == rip && next in w.graph && Learned(v.graph, current, next)
      && rip in p.codeSegmentsByAddress && next == p.codeSegmentsByAddress[rip]
  {
    next, v := LookUpGood(p, current, rip, w);
    assert AllDetached(w.owned - w.graph.Keys) && ModeReady(jit, w.graph.Keys);
  }

  method LearnReady(p: Process, current: CodeSegment, next: CodeSegment, jit: Option<Jit>, ghost w: World)
    returns (ok: bool, ghost v: World)
    requires Ready(p, w, jit) && current in w.graph && next in w.graph && Misses(w.graph, current, next.start())
    requires w.calm ==> current.block.Leads(next.start())
    modifies current`fixedInfo, current`variableInfo, current`successors, next`predecessors
    ensures Ready(p, v, jit) && v == w.(graph := v.graph) && v.graph.Keys == w.graph.Keys
    ensures !ok <==> Stuck(w.graph, current, next.start())
    ensures if ok then Learned(v.graph, current, next) && v.graph[next].Pred(current) else v == w && !w.calm
  {
    ok, v := Learn(p, current, next, w);
    assert AllDetached(w.owned - w.graph.Keys) && ModeReady(jit, w.graph.Keys);
  }

  /** findNextSegment: the segment for `rip` as the caches of `current` or else the registry have it,
      `block` being what is disassembled at `rip`. Either way it is what fetching from the registry gives.
      Fails iff no segment is to be had for `rip`, or both slots of `current` hold segments that start
      elsewhere; while nothing was removed, only for the first reason. */
  method FindNextSegment(p: Process, current: CodeSegment, rip: u64, block: Option<BasicBlock>, jit: Option<Jit>,
                         ghost w: World)
    returns (next: CodeSegment?, ok: bool, ghost v: World, ghost news: set<CodeSegment>)
    requires Ready(p, w, jit) && current in w.graph && StartsAt(block, rip) && (w.calm ==> current.block.Leads(rip))
    modifies p`codeSegmentsByAddress, p.codeSegments.Repr
    modifies w.graph.Keys`fixedInfo, w.graph.Keys`variableInfo, w.graph.Keys`successors, w.graph.Keys`predecessors
    ensures Ready(p, v, jit) && v.graph.Keys == w.graph.Keys + news && fresh(news) && Onward(w, v)
    ensures next == null <==> Lost(old(p.codeSegmentsByAddress), w.pieces, rip, block)
    ensures ok <==> next != null && !Stuck(w.graph, current, rip)
    ensures ok ==> Learned(v.graph, current, next)
    ensures next == null ==> v == w && p.codeSegmentsByAddress == old(p.codeSegmentsByAddress)
    ensures next != null && !ok ==> Stuck(v.graph, current, rip) && !w.calm
    ensures next != null ==>
      next in v.graph && Provided(old(p.codeSegmentsByAddress), rip, block, next, p.codeSegmentsByAddress)
  {
    next, v := LookUpReady(p, current, rip, jit, w);
    ok, news := true, {};
    if next == null { next, ok, v, news := FetchAndLearn(p, current, rip, block, jit, v); }
  }

  method FetchAndLearn(p: Process, current: CodeSegment, rip: u64, block: Option<BasicBlock>, jit: Option<Jit>,
                       ghost w: World)
    returns (next: CodeSegment?, ok: bool, ghost v: World, ghost news: set<CodeSegment>)
    requires Ready(p, w, jit) && current in w.graph && StartsAt(block, rip)
    requires Misses(w.graph, current, rip) && (w.calm ==> current.block.Leads(rip))
    modifies p`codeSegmentsByAddress, p.codeSegments.Repr
    modifies w.graph.Keys`fixedInfo, w.graph.Keys`variableInfo, w.graph.Keys`successors, w.graph.Keys`predecessors
    ensures Ready(p, v, jit) && v.graph.Keys == w.graph.Keys + news && fresh(news) && Onward(w, v)
    ensures next == null <==> Lost(old(p.codeSegmentsByAddress), w.pieces, rip, block)
    ensures ok <==> next != null && !Stuck(w.graph, current, rip)
    ensures ok ==> Learned(v.graph, current, next)
    ensures next == null ==> v == w && p.codeSegmentsByAddress == old(p.codeSegmentsByAddress)
    ensures next != null && !ok ==> Stuck(v.graph, current, rip) && !w.calm
    ensures next != null ==>
      next in v.graph && Provided(old(p.codeSegmentsByAddress), rip, block, next, p.codeSegmentsByAddress)
  {
    next, v, news := FetchNew(p, rip, block, jit, w);
    if next == null { return next, false, v, news; }
    ghost var found := v;
    ok, v := LearnReady(p, current, next, jit, found);
  }

  /** Segments known before keep their edges and slots. */
  ghost predicate KeepsEdges(g: Graph, h: Graph) {
    forall s {:trigger KeptEdges(g, h, s)} | s in g :: KeptEdges(g, h, s)
  }

  ghost predicate KeptEdges(g: Graph, h: Graph, s: CodeSegment)
    requires s in g
  {
    s in h && h[s].successors == g[s].successors && h[s].fixedInfo == g[s].fixedInfo
  }

  lemma KeepsOn(g: Graph, h: Graph, k: Graph)
    requires KeepsEdges(g, h) && SameEdges(h, k)
    ensures KeepsEdges(g, k)
  {
    forall s | s in g ensures KeptEdges(g, k, s) { assert KeptEdges(g, h, s) && SameNode(h, k, s); }
  }

  lemma KeepsFrom(g: Graph, h: Graph, k: Graph)
    requires SameEdges(g, h) && KeepsEdges(h, k)
    ensures KeepsEdges(g, k)
  {
    forall s | s in g ensures KeptEdges(g, k, s) { assert SameNode(g, h, s) && KeptEdges(h, k, s); }
  }

  lemma LearnedStays(g: Graph, s: CodeSegment, t: CodeSegment, h: Graph)
    requires Learned(g, s, t) && KeepsEdges(g, h)
    ensures Learned(h, s, t)
  {
    assert KeptEdges(g, h, s);
  }

  lemma SameKeeps(g: Graph)
    ensures KeepsEdges(g, g) && SameEdges(g, g)
  {
    forall s | s in g ensures SameNode(g, g, s) {}
  }

  /** Refreshes the lookup table of compiled code. */
  method Patch(p: Process, current: CodeSegment, jit: Jit, ghost w: World) returns (ghost v: World)
    requires Ready(p, w, Some(jit)) && current in w.graph
    modifies current`variableInfo
    ensures Ready(p, v, Some(jit)) && v == w.(graph := v.graph) && v.graph.Keys == w.graph.Keys
    ensures SameEdges(w.graph, v.graph) && TableFresh(v.graph, current)
  {
    TablesStayInside(w.graph);
    PatchedEvolves(w.graph, current, jit.chaining);
    assert current.ToNode() == w.graph[current] && NodeLinked(w.graph, current);
    current.TryPatch(w.graph);
    v := w.(graph := w.graph[current := Patched(w.graph, current)]);
    forall s | s in v.graph ensures s.ToNode() == v.graph[s] { assert s != current ==> old(s.ToNode()) == w.graph[s]; }
  }

  /** Nothing is unregistered. */
  ghost predicate Grown(before: map<u64, CodeSegment>, after: map<u64, CodeSegment>) {
    forall a | a in before :: a in after && after[a] == before[a]
  }

  lemma ProvidedGrows(before: map<u64, CodeSegment>, rip: u64, block: Option<BasicBlock>, seg: CodeSegment,
                      after: map<u64, CodeSegment>)
    requires Provided(before, rip, block, seg, after)
    ensures Grown(before, after)
  {}

  /** With a compiler, the loop cannot link the return of the call that ends `current`, where `block` is
      disassembled: no segment is to be had there, or `current` returns to another segment already. */
  ghost predicate CannotLink(p: Process, ps: seq<Piece<CodeSegment>>, jit: Jit, current: CodeSegment,
                             block: Option<BasicBlock>)
    reads p`codeSegmentsByAddress, current`ret
  {
    var registry, end := p.codeSegmentsByAddress, current.block.end;
    && current.block.Calls()
    && (Lost(registry, ps, end, block)
        || (jit.callChaining && current.ret != null && !(end in registry && registry[end] == current.ret)))
  }

  /** With a compiler, after a turn: refreshes the code of `current` where both it and its successor are
      compiled and, if it ends with a call, notes the segment the call returns to, which starts with
      `block` if it is new. */
  method LinkCompiled(p: Process, current: CodeSegment, next: CodeSegment, block: Option<BasicBlock>, jit: Jit,
                      ghost w: World)
    returns (ok: bool, ghost v: World, ghost news: set<CodeSegment>)
    requires Ready(p, w, Some(jit)) && current in w.graph && next in w.graph && StartsAt(block, current.block.end)
    modifies p`codeSegmentsByAddress, p.codeSegments.Repr, current`variableInfo, current`ret
    ensures Ready(p, v, Some(jit)) && v.graph.Keys == w.graph.Keys + news && fresh(news) && Onward(w, v)
    ensures Grown(old(p.codeSegmentsByAddress), p.codeSegmentsByAddress)
    ensures RetBlocks(old(Blocks(p.codeSegmentsByAddress)), current.block, block, ok, Blocks(p.codeSegmentsByAddress))
    ensures ok <==> !old(CannotLink(p, w.pieces, jit, current, block))
    ensures !ok ==> CannotLink(p, v.pieces, jit, current, block)
    ensures KeepsEdges(w.graph, v.graph)
    ensures ok && current.block.Calls() ==>
      && current.block.end in p.codeSegmentsByAddress
      && if jit.callChaining then Noted(p, v.graph, current) else current.ret == old(current.ret)
    ensures !current.block.Calls() ==>
      && ok && current.ret == old(current.ret)
      && (current.block.fixedJump && jit.chaining && current.jitBasicBlock.Some? && next.jitBasicBlock.Some? ==>
            TableFresh(v.graph, current))
  {
    ok, news := true, {};
    v := PatchJump(p, current, next, jit, w);
    ghost var patched := v;
    SameKeeps(patched.graph);
    if current.block.directCall || current.block.indirectCall {
      assert CannotLink(p, w.pieces, jit, current, block) == old(CannotLink(p, w.pieces, jit, current, block));
      ok, v, news := LinkReturn(p, current, block, jit, patched);
    }
    KeepsFrom(w.graph, patched.graph, v.graph);
  }

  method PatchJump(p: Process, current: CodeSegment, next: CodeSegment, jit: Jit, ghost w: World)
    returns (ghost v: World)
    requires Ready(p, w, Some(jit)) && current in w.graph && next in w.graph
    modifies current`variableInfo
    ensures Ready(p, v, Some(jit)) && v == w.(graph := v.graph) && SameEdges(w.graph, v.graph)
    ensures current.block.fixedJump && jit.chaining && current.jitBasicBlock.Some? && next.jitBasicBlock.Some? ==>
      TableFresh(v.graph, current)
  {
    v := w;
    SameKeeps(w.graph);
    if current.jitBasicBlock.Some? && current.block.fixedJump && next.jitBasicBlock.Some? && jit.chaining {
      v := Patch(p, current, jit, v);
    }
  }

  /** What linking a return fetches, wholly or, if it failed, perhaps not at all. */
  ghost predicate RetBlocks(before: map<u64, BasicBlock>, left: BasicBlock, block: Option<BasicBlock>, ok: bool,
                            after: map<u64, BasicBlock>) {
    var all := if left.Calls() then WithBlock(before, left.end, block) else before;
    after == all || (!ok && after == before)
  }

  /** What `current` returns to is noted: it is the segment registered where its call ends, and the table of
      `current`, if it is compiled, is up to date. */
  ghost predicate Noted(p: Process, g: Graph, current: CodeSegment)
    reads p`codeSegmentsByAddress, current`ret
  {
    var end, registry := current.block.end, p.codeSegmentsByAddress;
    && current.ret != null && current.ret.start() == end && end in registry && registry[end] == current.ret
    && current in g && TableFresh(g, current)
  }

  method LinkReturn(p: Process, current: CodeSegment, block: Option<BasicBlock>, jit: Jit, ghost w: World)
    returns (ok: bool, ghost v: World, ghost news: set<CodeSegment>)
    requires Ready(p, w, Some(jit)) && current in w.graph && StartsAt(block, current.block.end)
    requires current.block.Calls()
    modifies p`codeSegmentsByAddress, p.codeSegments.Repr, current`variableInfo, current`ret
    ensures Ready(p, v, Some(jit)) && v.graph.Keys == w.graph.Keys + news && fresh(news) && Onward(w, v)
    ensures Grown(old(p.codeSegmentsByAddress), p.codeSegmentsByAddress)
    ensures RetBlocks(old(Blocks(p.codeSegmentsByAddress)), current.block, block, ok, Blocks(p.codeSegmentsByAddress))
    ensures ok ==> current.block.end in p.codeSegmentsByAddress
    ensures ok <==> !old(CannotLink(p, w.pieces, jit, current, block))
    ensures !ok ==> CannotLink(p, v.pieces, jit, current, block)
    ensures KeepsEdges(w.graph, v.graph)
    ensures if jit.callChaining then ok ==> Noted(p, v.graph, current) else current.ret == old(current.ret)
  {
    var ret;
    ret, v, news := FetchNew(p, current.block.end, block, Some(jit), w);
    assert KeepsEdges(w.graph, v.graph);
    if ret == null { return false, v, news; }
    ok := true;
    ProvidedGrows(old(p.codeSegmentsByAddress), current.block.end, block, ret, p.codeSegmentsByAddress);
    ProvidedBlocks(old(p.codeSegmentsByAddress), current.block.end, block, ret, p.codeSegmentsByAddress);
    if jit.callChaining {
      ghost var found := v;
      ok, v := NoteReturn(p, current, ret, jit, found);
      KeepsOn(w.graph, found.graph, v.graph);
    }
  }

  method NoteReturn(p: Process, current: CodeSegment, ret: CodeSegment, jit: Jit, ghost w: World)
    returns (ok: bool, ghost v: World)
    requires Ready(p, w, Some(jit)) && current in w.graph && ret in w.graph
    modifies current`variableInfo, current`ret
    ensures Ready(p, v, Some(jit)) && v == w.(graph := v.graph) && v.graph.Keys == w.graph.Keys
    ensures ok <==> old(current.ret == null || current.ret == ret) && ret.start() == current.block.end
    ensures current.ret == if old(current.ret) == null then ret else old(current.ret)
    ensures SameEdges(w.graph, v.graph) && (ok ==> TableFresh(v.graph, current))
  {
    v := w;
    SameKeeps(w.graph);
    ok := current.AddReturn(ret);
    if ok { v := Patch(p, current, jit, v); }
  }

  method CountCall(p: Process, seg: CodeSegment, jit: Option<Jit>, ghost w: World)
    requires Ready(p, w, jit) && seg in w.graph && (jit.Some? ==> seg.ToHeat().Checked())
    modifies seg`calls, seg`coldCalls
    ensures Ready(p, w, jit) && seg.calls == old(seg.calls) + 1
  {
    assert jit.Some? ==> seg.ToHeat().Warm();
    seg.OnCpuCall();
    assert ModeReady(jit, w.graph.Keys) by {
      forall s | s in w.graph && jit.Some? ensures s.ToHeat().Warm() {
        assert s != seg ==> s.ToHeat() == old(s.ToHeat());
      }
    }
  }

  /** Why the loop stops after it left `current` for `rip`, where `block` is disassembled, and `retBlock` behind
      `current`: no segment is to be had; or, once something was removed, both slots of `current` are taken
      by others; or the return of its call cannot be linked. */
  ghost predicate Halts(p: Process, w: World, jit: Option<Jit>, current: CodeSegment, rip: u64,
                        block: Option<BasicBlock>, retBlock: Option<BasicBlock>)
    reads p`codeSegmentsByAddress, current`ret
  {
    && current in w.graph
    && (|| Lost(p.codeSegmentsByAddress, w.pieces, rip, block)
        || (!w.calm && Stuck(w.graph, current, rip))
        || (jit.Some? && CannotLink(p, w.pieces, jit.value, current, retBlock)))
  }

  /** What following control from `left` to `rip` fetches: everything or, if it failed, what linking again
      completes to that. */
  ghost predicate Followed(before: map<u64, BasicBlock>, jit: Option<Jit>, left: BasicBlock, rip: u64,
                           block: Option<BasicBlock>, retBlock: Option<BasicBlock>, ok: bool,
                           after: map<u64, BasicBlock>)
  {
    var all := LinkedBlocks(before, jit, left, rip, block, retBlock);
    LinkedBlocks(after, jit, left, rip, block, retBlock) == all && (ok ==> after == all)
  }

  lemma FollowedIs(before: map<u64, BasicBlock>, jit: Option<Jit>, left: BasicBlock, rip: u64,
                   block: Option<BasicBlock>, retBlock: Option<BasicBlock>, middle: map<u64, BasicBlock>, ok: bool,
                   after: map<u64, BasicBlock>)
    requires middle == WithBlock(before, rip, block) && rip in middle
    requires if jit.Some? then RetBlocks(middle, left, retBlock, ok, after) else after == middle
    ensures Followed(before, jit, left, rip, block, retBlock, ok, after)
  {}

  /** The segment for `rip` after `current` ran, found and linked; `block` and `retBlock` are what is
      disassembled there and after `current`. */
  method Follow(p: Process, current: CodeSegment, rip: u64, block: Option<BasicBlock>, retBlock: Option<BasicBlock>,
                jit: Option<Jit>, ghost w: World)
    returns (next: CodeSegment?, ok: bool, ghost v: World, ghost news: set<CodeSegment>)
    requires Ready(p, w, jit) && current in w.graph && StartsAt(block, rip) && StartsAt(retBlock, current.block.end)
    requires w.calm ==> current.block.Leads(rip)
    modifies p`codeSegmentsByAddress, p.codeSegments.Repr, w.graph.Keys
    ensures Ready(p, v, jit) && w.graph.Keys <= v.graph.Keys <= w.graph.Keys + news && fresh(news) && Onward(w, v)
    ensures next != null ==>
      next in v.graph && rip in p.codeSegmentsByAddress && p.codeSegmentsByAddress[rip] == next
    ensures Followed(old(Blocks(p.codeSegmentsByAddress)), jit, current.block, rip, block, retBlock, ok,
                     Blocks(p.codeSegmentsByAddress))
    ensures if ok then next != null && Learned(v.graph, current, next)
      else Halts(p, v, jit, current, rip, block, retBlock)
    ensures ok && jit.Some? && jit.value.callChaining && current.block.Calls() ==> Noted(p, v.graph, current)
  {
    ghost var before, middle := Blocks(p.codeSegmentsByAddress), map[];
    if jit.None? {
      next, ok, v, news := FindNextSegment(p, current, rip, block, jit, w);
      if next != null { ProvidedBlocks(old(p.codeSegmentsByAddress), rip, block, next, p.codeSegmentsByAddress); }
    } else {
      ghost var first, more;
      next, ok, v, first, more, middle := FollowCompiled(p, current, rip, block, retBlock, jit.value, w);
      news := first + more;
      if next != null {
        ProvidedBlocks(old(p.codeSegmentsByAddress), rip, block, next, middle);
        FollowedIs(before, jit, current.block, rip, block, retBlock, Blocks(middle), ok,
          Blocks(p.codeSegmentsByAddress));
      }
    }
  }

  method FollowCompiled(p: Process, current: CodeSegment, rip: u64, block: Option<BasicBlock>,
                        retBlock: Option<BasicBlock>, jit: Jit, ghost w: World)
    returns (next: CodeSegment?, ok: bool, ghost v: World, ghost news: set<CodeSegment>,
             ghost more: set<CodeSegment>, ghost middle: map<u64, CodeSegment>)
    requires Ready(p, w, Some(jit)) && current in w.graph
    requires StartsAt(block, rip) && StartsAt(retBlock, current.block.end)
    modifies p`codeSegmentsByAddress, p.codeSegments.Repr, w.graph.Keys
    ensures Ready(p, v, Some(jit)) && w.graph.Keys <= v.graph.Keys <= w.graph.Keys + news + more && Onward(w, v)
    ensures fresh(news) && fresh(more)
    ensures if next == null then p.codeSegmentsByAddress == old(p.codeSegmentsByAddress)
      else
        && next in v.graph && rip in p.codeSegmentsByAddress && p.codeSegmentsByAddress[rip] == next
        && Provided(old(p.codeSegmentsByAddress), rip, block, next, middle)
        && RetBlocks(Blocks(middle), current.block, retBlock, ok, Blocks(p.codeSegmentsByAddress))
    ensures if ok then next != null && Learned(v.graph, current, next)
      else Halts(p, v, Some(jit), current, rip, block, retBlock)
    ensures ok && jit.callChaining && current.block.Calls() ==> Noted(p, v.graph, current)
  {
    next, ok, v, news := FindNextSegment(p, current, rip, block, Some(jit), w);
    middle, more := p.codeSegmentsByAddress, {};
    if ok {
      ghost var found := v;
      ok, v, more := LinkCompiled(p, current, next, retBlock, jit, found);
      LearnedStays(found.graph, current, next, v.graph);
      OnwardOn(w, found, v);
    }
  }

  /** No segment that removing [base, end) leaves returns to one that it takes away: return edges are not
      unlinked. */
  ghost predicate NoneReturns(w: World, base: u64, end: u64)
    reads w.graph.Keys`ret
  {
    forall s | s in w.graph && s.ret != null && !Near(w.pieces, base, end, s) :: !Near(w.pieces, base, end, s.ret)
  }

  /** The dispatch loop may go on after [base, end) is removed. */
  ghost predicate Removable(w: World, base: u64, end: u64, jit: Option<Jit>)
    reads w.graph.Keys`ret
  {
    Safe(w, base, end) && (jit.Some? ==> NoneReturns(w, base, end))
  }

  /** Losing segments keeps what else holds exactly when none left returns to a lost one. */
  lemma ModeShrinks(jit: Option<Jit>, left: set<CodeSegment>, gone: set<CodeSegment>)
    requires if jit.Some? then AllWarm(left) && AllMade(jit.value, left) else Uncompiled(left)
    requires left !! gone && forall s | s in left && s.ret != null && jit.Some? :: s.ret in left + gone
    ensures ModeReady(jit, left) <==> (jit.Some? ==> forall s | s in left :: s.ret == null || s.ret !in gone)
  {}

  /** Invalidation heats, cools and compiles no segment that is left. */
  method InvalidateCold(p: Process, base: u64, end: u64, jit: Option<Jit>, ghost w: World)
    returns (ghost v: World, ghost visited: seq<CodeSegment>)
    requires Ready(p, w, jit) && base <= end
    modifies p`codeSegmentsByAddress, p.codeSegments`values, p.codeSegments`Repr, p.codeSegments.Repr
    modifies w.owned`fixedInfo, w.owned`variableInfo, w.owned`successors, w.owned`predecessors, w.owned`jitBasicBlock
    ensures AllDetached(v.owned - v.graph.Keys) && v.owned <= w.owned && !v.calm && unchanged(w.graph.Keys`ret)
    ensures if jit.Some? then AllWarm(v.graph.Keys) else Uncompiled(v.graph.Keys)
    ensures Pictured(v.graph) && KeepsCode(w.graph, v.graph)
    ensures v.graph.Keys == w.graph.Keys - (set s | s in visited)
    ensures p.codeSegmentsByAddress == old(p.codeSegmentsByAddress) - StartsOf(visited)
    ensures Good(p, v) <==> Safe(w, base, end)
    ensures Cleared(w.pieces, base, end, visited, v.pieces)
    ensures fresh(p.codeSegments.Repr - old(p.codeSegments.Repr))
  {
    NoIntervals(w.owned, p.codeSegments.Repr);
    v, visited := Invalidate(p, base, end, w);
    assert jit.None? ==> forall s {:trigger s.jitBasicBlock} | s in v.graph :: !s.ToHeat().compiled;
  }

  /** A region stops being executable. What the dispatch loop relies on survives exactly when the removal
      was safe: no linked segment away from the region starts where one near it does and, with a compiler,
      none away from it returns to one near it. Then no registered block starts in the region exactly when
      each that did was filed near it, as code that is housed is. */
  method InvalidateReady(p: Process, base: u64, end: u64, jit: Option<Jit>, ghost w: World)
    returns (ghost v: World, ghost visited: seq<CodeSegment>)
    requires Ready(p, w, jit) && base <= end
    modifies p`codeSegmentsByAddress, p.codeSegments`values, p.codeSegments`Repr, p.codeSegments.Repr
    modifies w.owned`fixedInfo, w.owned`variableInfo, w.owned`successors, w.owned`predecessors, w.owned`jitBasicBlock
    ensures v.graph.Keys == w.graph.Keys - (set s | s in visited) && v.owned <= w.owned && !v.calm
    ensures p.codeSegmentsByAddress == old(p.codeSegmentsByAddress) - StartsOf(visited)
    ensures Ready(p, v, jit) <==> old(Removable(w, base, end, jit))
    ensures Cleared(w.pieces, base, end, visited, v.pieces)
    ensures AllNear(w, base, end) ==> forall a | a in p.codeSegmentsByAddress :: !(base <= a <= end)
    ensures Safe(w, base, end) && (forall a | a in p.codeSegmentsByAddress :: !(base <= a <= end)) ==>
      AllNear(w, base, end)
    ensures Housed(w.pieces, SegmentStart) ==> AllNear(w, base, end)
    ensures fresh(p.codeSegments.Repr - old(p.codeSegments.Repr))
  {
    if jit.Some? { MadeIs(w.graph, jit.value); }
    v, visited := InvalidateCold(p, base, end, jit, w);
    if jit.Some? { MadeIs(v.graph, jit.value); }
    ReadyAfter(p, w, base, end, jit, v, visited);
    NoneStartsThere(old(p.codeSegmentsByAddress), w, base, end, visited);
    if Housed(w.pieces, SegmentStart) { HousedAreNear(w, base, end); }
  }

  lemma NoneReturnsIs(w: World, base: u64, end: u64, left: set<CodeSegment>, visited: seq<CodeSegment>)
    requires left == w.graph.Keys - (set s | s in visited) && w.graph.Keys <= w.owned
    requires forall s {:trigger Near(w.pieces, base, end, s)} | s in w.owned ::
      s in visited <==> Near(w.pieces, base, end, s)
    ensures RetsInside(w.graph.Keys) ==>
      (NoneReturns(w, base, end) <==> forall s | s in left :: s.ret == null || s.ret !in visited)
  {
    assert forall s | s in w.graph :: s in left <==> !Near(w.pieces, base, end, s);
  }

  lemma ReadyAfter(p: Process, w: World, base: u64, end: u64, jit: Option<Jit>, v: World, visited: seq<CodeSegment>)
    requires v.graph.Keys == w.graph.Keys - (set s | s in visited) && w.graph.Keys <= w.owned && !v.calm
    requires forall s {:trigger Near(w.pieces, base, end, s)} | s in w.owned ::
      s in visited <==> Near(w.pieces, base, end, s)
    requires AllDetached(v.owned - v.graph.Keys) && (jit.Some? ==> RetsInside(w.graph.Keys))
    requires if jit.Some? then AllWarm(v.graph.Keys) && AllMade(jit.value, v.graph.Keys) else Uncompiled(v.graph.Keys)
    requires Good(p, v) <==> Safe(w, base, end)
    ensures Ready(p, v, jit) <==> Removable(w, base, end, jit)
  {
    ModeShrinks(jit, v.graph.Keys, set s | s in visited);
    NoneReturnsIs(w, base, end, v.graph.Keys, visited);
  }

  /** Every linked segment that starts in the region is filed near it. */
  ghost predicate AllNear(w: World, base: u64, end: u64) {
    forall s {:trigger Near(w.pieces, base, end, s)} | s in w.graph && base <= s.start() <= end ::
      Near(w.pieces, base, end, s)
  }

  lemma HousedAreNear(w: World, base: u64, end: u64)
    requires Housed(w.pieces, SegmentStart) && w.graph.Keys <= ItemSet(w.pieces)
    ensures AllNear(w, base, end)
  {
    forall s | s in w.graph && base <= s.start() <= end ensures Near(w.pieces, base, end, s) {
      HousedIsNear(w.pieces, SegmentStart, base, end, s);
    }
  }

  lemma NoneStartsThere(registry: map<u64, CodeSegment>, w: World, base: u64, end: u64, visited: seq<CodeSegment>)
    requires registry.Values == w.graph.Keys <= w.owned && forall a | a in registry :: registry[a].start() == a
    requires forall s | s in visited :: s in w.owned
    requires forall s {:trigger Near(w.pieces, base, end, s)} | s in w.owned ::
      s in visited <==> Near(w.pieces, base, end, s)
    ensures var left := registry - StartsOf(visited);
      && (AllNear(w, base, end) ==> forall a | a in left :: !(base <= a <= end))
      && (Safe(w, base, end) && (forall a | a in left :: !(base <= a <= end)) ==> AllNear(w, base, end))
  {
    var left := registry - StartsOf(visited);
    if AllNear(w, base, end) {
      forall a | a in registry && base <= a <= end ensures a in StartsOf(visited) {
        assert registry[a] in registry.Values && Near(w.pieces, base, end, registry[a]);
      }
    }
    if Safe(w, base, end) && forall a | a in left :: !(base <= a <= end) {
      forall s | s in w.graph && base <= s.start() <= end ensures Near(w.pieces, base, end, s) {
        var a :| a in registry && registry[a] == s;
        assert s.start() == a && a !in left;
        var t :| t in visited && t.start() == a;
        assert Near(w.pieces, base, end, t) && t in w.owned;
      }
    }
  }

  /** A region becomes executable. */
  method ReserveReady(p: Process, base: u64, end: u64, jit: Option<Jit>, ghost w: World)
    returns (ok: bool, ghost pos: nat, ghost v: World)
    requires Ready(p, w, jit) && base < end
    modifies p.codeSegments`values, p.codeSegments`Repr
    ensures InsertsAt(w.pieces, base, pos) && ok == (pos < |w.pieces| ==> end <= w.pieces[pos].start)
    ensures !Meets(w.pieces, base, end) ==> ok
    ensures v == w.(pieces := if ok then Spliced(w.pieces, pos, Piece(base, end, multiset{})) else w.pieces)
    ensures Ready(p, v, jit) <==> !ok || !Meets(w.pieces, base, end)
    ensures fresh(p.codeSegments.Repr - old(p.codeSegments.Repr))
  {
    ok, pos, v := Reserve(p, base, end, w);
  }
}
