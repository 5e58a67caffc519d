/** Finding the next segment (emulator/src/emulator/vm.cpp, findNextSegment): the caches first, the
    registry on a miss. */
module Dispatch {
  import opened Types
  import opened CodeSegments
  import opened GraphLaws
  import opened InlineCacheLaws
  import opened IntervalLaws
  import opened Processes

  /** Pictures of a process's heap: what its interval vector owns, the linked segments, the intervals.
      `calm` is the promise that nothing was ever removed, so that the slots of every block are settled. */
  datatype World = World(owned: set<CodeSegment>, graph: Graph, pieces: seq<Piece<CodeSegment>>, calm: bool)

  /** `w` pictures process `p`, whose graph is linked and whose registry holds exactly the linked segments. */
  ghost predicate Good(p: Process, w: World)
    reads p, p.codeSegments, p.codeSegments.Repr, w.graph.Keys`fixedInfo, w.graph.Keys`variableInfo
    reads w.graph.Keys`successors, w.graph.Keys`predecessors, w.graph.Keys`jitBasicBlock
  {
    && Pictured(w.graph) && Linked(w.graph)
    && p.Owns(w.owned, w.graph, w.pieces) && p.InStep(w.graph)
  }

  /** A linked segment is the registered one for its start address. */
  lemma LinkedIsRegistered(p: Process, g: Graph, s: CodeSegment)
    requires p.InStep(g) && s in g
    ensures s.start() in p.codeSegmentsByAddress && p.codeSegmentsByAddress[s.start()] == s
  {
    assert s in p.codeSegmentsByAddress.Values;
  }

  /** What the caches of `s` answer for `rip` is a linked segment starting there. */
  ghost function Answer(g: Graph, s: CodeSegment, rip: u64): (next: CodeSegment?)
    requires s in g && NodeLinked(g, s)
    ensures next != null ==> next in g && next.start() == rip
  {
    var n := g[s];
    if s.Fixed() then
      var i := n.fixedInfo.HitSlot(rip);
      if i < 2 then
        assert Filed(n.successors, n.fixedInfo.next[i]);
        n.fixedInfo.next[i]
      else null
    else if rip in n.successors then n.successors[rip] else null
  }

  /** The graph after that lookup: a hit in a slot counts. */
  ghost function AfterLookUp(g: Graph, s: CodeSegment, rip: u64): (r: Graph)
    requires s in g && NodeLinked(g, s)
    ensures r.Keys == g.Keys
  {
    if s.Fixed() && g[s].fixedInfo.HitSlot(rip) < 2 then Touch(g, s, g[s].fixedInfo.HitSlot(rip)) else g
  }

  /** Looks `rip` up in the caches of `current`. */
  method LookUp(current: CodeSegment, rip: u64, ghost g: Graph) returns (next: CodeSegment?)
    requires current in g && Pictured(g) && NodeLinked(g, current)
    modifies current`fixedInfo
    ensures next == Answer(g, current, rip) && Pictured(AfterLookUp(g, current, rip))
  {
    assert current.ToNode() == g[current];
    next := current.FindNext(rip);
    forall s | s in g && s != current ensures s.ToNode() == g[s] { assert old(s.ToNode()) == g[s]; }
  }

  /** `seg` is what fetching `rip` from the registry `before` gives, and `after` the registry then:
      the registered segment or else a new one made of `block`. */
  ghost predicate Fetched(before: map<u64, CodeSegment>, rip: u64, block: Option<BasicBlock>,
                          seg: CodeSegment, after: map<u64, CodeSegment>) {
    if rip in before then seg == before[rip] && after == before
    else Some(seg.block) == block && after == before[rip := seg]
  }

  /** The registered blocks, which is what the caches must not change. */
  ghost function Blocks(registry: map<u64, CodeSegment>): map<u64, BasicBlock> {
    map a | a in registry :: registry[a].block
  }

  /** The blocks once `block`, if it is one, is fetched at `a`. */
  ghost function WithBlock(blocks: map<u64, BasicBlock>, a: u64, block: Option<BasicBlock>): map<u64, BasicBlock> {
    if a in blocks || block.None? then blocks else blocks[a := block.value]
  }

  /** The blocks once control left block `left` for `rip`: what is there is fetched and, with a compiler,
      what a call that ends `left` returns to. */
  ghost function LinkedBlocks(blocks: map<u64, BasicBlock>, jit: Option<Jit>, left: BasicBlock, rip: u64,
                              block: Option<BasicBlock>, retBlock: Option<BasicBlock>): map<u64, BasicBlock> {
    var next := WithBlock(blocks, rip, block);
    if jit.Some? && left.Calls() then WithBlock(next, left.end, retBlock) else next
  }

  lemma ProvidedBlocks(before: map<u64, CodeSegment>, rip: u64, block: Option<BasicBlock>, seg: CodeSegment,
                       after: map<u64, CodeSegment>)
    requires Provided(before, rip, block, seg, after)
    ensures Blocks(after) == WithBlock(Blocks(before), rip, block) && rip in Blocks(after)
  {}

  /** A slot holds `t`. */
  ghost predicate Slotted(n: Node, t: CodeSegment) {
    n.fixedInfo.Shaped() && (n.fixedInfo.next[0] == t || n.fixedInfo.next[1] == t)
  }

  /** The caches of `s` have no segment for `rip`. */
  ghost predicate Misses(g: Graph, s: CodeSegment, rip: u64) {
    && s in g && g[s].fixedInfo.Shaped()
    && if s.Fixed() then g[s].fixedInfo.HitSlot(rip) == 2 else rip !in g[s].successors
  }

  /** `v` extends `w` by at most the segment `seg`. */
  ghost predicate Extends(w: World, seg: CodeSegment?, v: World) {
    && v.graph.Keys == w.graph.Keys + (if seg == null then {} else {seg})
    && v.owned == w.owned + (if seg == null then {} else {seg})
  }

  /** From `w` to `v` the intervals stay and hold more segments, which are linked, and nothing is removed. */
  ghost predicate Onward(w: World, v: World) {
    && v.calm == w.calm && Grows(w.pieces, v.pieces, SegmentStart)
    && w.graph.Keys <= v.graph.Keys && v.owned <= w.owned + v.graph.Keys
  }

  lemma OnwardOn(u: World, v: World, w: World)
    requires Onward(u, v) && Onward(v, w)
    ensures Onward(u, w)
  {
    GrowsOn(u.pieces, v.pieces, w.pieces, SegmentStart);
  }

  lemma CreateKeepsGood(g: Graph, s: CodeSegment)
    requires Pictured(g) && Linked(g) && s !in g && s.ToNode() == EMPTY_NODE
    requires forall t | t in g :: t.start() != s.start()
    ensures Pictured(g[s := EMPTY_NODE]) && Linked(g[s := EMPTY_NODE])
  {
    CreateKeepsLinked(g, s);
    var h := g[s := EMPTY_NODE];
    forall x | x in h ensures x.ToNode() == h[x] {}
  }

  lemma NotLinked(registry: map<u64, CodeSegment>, linked: set<CodeSegment>, rip: u64)
    requires registry.Values == linked && rip !in registry && forall a | a in registry :: registry[a].start() == a
    ensures forall t | t in linked :: t.start() != rip
  {
    forall t | t in linked ensures t.start() != rip { var a :| a in registry && registry[a] == t; }
  }

  /** `seg` starts at `rip` and is what fetching from the registry gives. */
  ghost predicate Provided(before: map<u64, CodeSegment>, rip: u64, block: Option<BasicBlock>,
                           seg: CodeSegment, after: map<u64, CodeSegment>)
  {
    seg.start() == rip && Fetched(before, rip, block, seg, after)
  }

  lemma CreateKeepsCalm(g: Graph, s: CodeSegment)
    requires Calm(g)
    ensures Calm(g[s := EMPTY_NODE])
  {
    var h := g[s := EMPTY_NODE];
    forall x | x in h ensures CalmAt(h, x) { assert x != s ==> CalmAt(g, x); }
  }

  /** The registered segment for `rip`, or a new one made of `block`; null when none is registered and there
      is no block or no interval ends at or after `rip`. */
  method Fetch(p: Process, rip: u64, block: Option<BasicBlock>, ghost w: World)
    returns (seg: CodeSegment?, ghost v: World)
    requires Good(p, w) && StartsAt(block, rip)
    modifies p`codeSegmentsByAddress, p.codeSegments.Repr
    ensures Good(p, v) && Extends(w, seg, v) && Onward(w, v) && (Calm(w.graph) ==> Calm(v.graph))
    ensures unchanged(w.owned)
    ensures seg == null <==> Lost(old(p.codeSegmentsByAddress), w.pieces, rip, block)
    ensures seg == null ==> v == w && p.codeSegmentsByAddress == old(p.codeSegmentsByAddress)
    ensures forall s | s in w.graph :: v.graph[s] == w.graph[s]
    ensures seg != null ==>
      && (seg in w.graph || (fresh(seg) && seg.New()))
      && Provided(old(p.codeSegmentsByAddress), rip, block, seg, p.codeSegmentsByAddress)
  {
    ghost var h, qs;
    seg, h, qs := p.FetchSegment(rip, block, w.owned, w.graph, w.pieces);
    if seg == null { return seg, w; }
    v := World(w.owned + {seg}, h, qs, w.calm);
    if rip in old(p.codeSegmentsByAddress) {
      assert seg in old(p.codeSegmentsByAddress).Values;
    } else {
      NotLinked(old(p.codeSegmentsByAddress), w.graph.Keys, rip);
    }
    JoinedGood(p, w, seg, v);
  }

  /** A segment that was linked, or is new and starts where none does, joins. */
  lemma JoinedGood(p: Process, w: World, seg: CodeSegment, v: World)
    requires Pictured(w.graph) && Linked(w.graph) && p.Owns(v.owned, v.graph, v.pieces) && p.InStep(v.graph)
    requires v.owned == w.owned + {seg}
    requires
      || (seg in w.graph && v.graph == w.graph)
      || (seg !in w.graph && seg.ToNode() == EMPTY_NODE && v.graph == w.graph[seg := EMPTY_NODE]
          && forall t | t in w.graph :: t.start() != seg.start())
    ensures Good(p, v) && Extends(w, seg, v) && (Calm(w.graph) ==> Calm(v.graph))
    ensures forall s | s in w.graph :: v.graph[s] == w.graph[s]
  {
    if seg !in w.graph {
      CreateKeepsGood(w.graph, seg);
      if Calm(w.graph) { CreateKeepsCalm(w.graph, seg); }
    }
  }

  /** Looks `rip` up in the caches of `current`: what they answer is the registered segment. */
  method LookUpGood(p: Process, current: CodeSegment, rip: u64, ghost w: World)
    returns (next: CodeSegment?, ghost v: World)
    requires Good(p, w) && current in w.graph
    modifies current`fixedInfo
    ensures Good(p, v) && v == w.(graph := v.graph) && v.graph.Keys == w.graph.Keys
    ensures Calm(w.graph) ==> Calm(v.graph)
    ensures if next == null then v == w && Misses(w.graph, current, rip) else !Stuck(w.graph, current, rip)
    ensures next != null ==>
      && next.start() == rip && next in w.graph && next in w.owned
      && rip in p.codeSegmentsByAddress && next == p.codeSegmentsByAddress[rip]
      && v.graph[current].Succ(next) && (current.Fixed() ==> Slotted(v.graph[current], next))
    ensures next != null && current.Fixed() ==>
      var f, r := w.graph[current].fixedInfo, v.graph[current].fixedInfo;
      && f.Shaped() && r.Shaped() && r.nextCount[0] + r.nextCount[1] == f.nextCount[0] + f.nextCount[1] + 1
      && (r.next == f.next || r.next == [f.next[1], f.next[0]])
  {
    assert NodeLinked(w.graph, current);
    v := w.(graph := AfterLookUp(w.graph, current, rip));
    AfterLookUpLinked(w.graph, current, rip);
    next := LookUp(current, rip, w.graph);
    if next != null { LinkedIsRegistered(p, w.graph, next); }
    if Calm(w.graph) { AfterLookUpCalm(w.graph, current, rip); }
  }

  lemma AfterLookUpCalm(g: Graph, s: CodeSegment, rip: u64)
    requires Calm(g) && s in g && NodeLinked(g, s)
    ensures Calm(AfterLookUp(g, s, rip))
  {
    assert CalmAt(g, s);
    CalmStays(g, s, AfterLookUp(g, s, rip));
  }

  lemma EdgeLearned(g: Graph, s: CodeSegment, t: CodeSegment)
    requires Linked(g) && s in g && t in g && NodeLinked(g, s) && CanAdd(g, s)
    ensures Linked(AddEdge(g, s, t))
    ensures var h := AddEdge(g, s, t); h[s].Succ(t) && h[t].Pred(s) && (s.Fixed() ==> Slotted(h[s], t))
  {
    AddEdgeKeepsLinked(g, s, t);
    assert NodeLinked(g, t);
    AddEdgeEdges(g, s, t, s, t);
  }

  /** Records that control went from `current` to `next`. Fails, changing nothing, iff both slots of
      `current` are taken. */
  method Learn(p: Process, current: CodeSegment, next: CodeSegment, ghost w: World) returns (ok: bool, ghost v: World)
    requires Good(p, w) && current in w.graph && next in w.graph && Misses(w.graph, current, next.start())
    modifies current`fixedInfo, current`variableInfo, current`successors, next`predecessors
    ensures Good(p, v) && v == w.(graph := v.graph) && v.graph.Keys == w.graph.Keys
    ensures !ok <==> Stuck(w.graph, current, next.start())
    ensures !ok ==> v == w
    ensures ok ==> v.graph[current].Succ(next) && v.graph[next].Pred(current)
    ensures ok && current.Fixed() ==> Slotted(v.graph[current], next)
    ensures Calm(w.graph) && current.block.Leads(next.start()) ==> ok && Calm(v.graph)
  {
    assert NodeLinked(w.graph, current);
    v := w;
    ok := current.AddSuccessor(next, w.graph);
    if ok {
      EdgeLearned(w.graph, current, next);
      v := w.(graph := AddEdge(w.graph, current, next));
      if Calm(w.graph) && current.block.Leads(next.start()) { AddEdgeKeepsCalm(w.graph, current, next); }
    } else if Calm(w.graph) && current.block.Leads(next.start()) {
      CalmIsNotStuck(w.graph, current, next.start());
    }
  }

  lemma AddEdgeKeepsCalm(g: Graph, s: CodeSegment, t: CodeSegment)
    requires Calm(g) && s in g && t in g && NodeLinked(g, s) && CanAdd(g, s)
    requires s.block.Leads(t.start()) && Misses(g, s, t.start())
    ensures Calm(AddEdge(g, s, t))
  {
    assert CalmAt(g, s);
    if s.Fixed() { SettledArrives(g[s].fixedInfo, s.block, t); }
    CalmStays(g, s, AddEdge(g, s, t));
  }

  lemma AfterLookUpLinked(g: Graph, s: CodeSegment, rip: u64)
    requires Linked(g) && s in g && NodeLinked(g, s)
    ensures Linked(AfterLookUp(g, s, rip))
  {
    if s.Fixed() && g[s].fixedInfo.HitSlot(rip) < 2 { TouchKeepsLinked(g, s, g[s].fixedInfo.HitSlot(rip)); }
  }

  /** Removing [base, end) leaves registry and graph in step exactly when no linked segment away from it
      starts where a segment near it does: the registry is erased by start address. */
  ghost predicate Safe(w: World, base: u64, end: u64) {
    forall s, t {:trigger Near(w.pieces, base, end, s), Near(w.pieces, base, end, t)} | s in w.graph && t in w.owned
      && !Near(w.pieces, base, end, s) && Near(w.pieces, base, end, t) :: s.start() != t.start()
  }

  lemma SafeIs(w: World, base: u64, end: u64, left: set<CodeSegment>, visited: seq<CodeSegment>)
    requires left == w.graph.Keys - (set s | s in visited) && w.graph.Keys <= w.owned
    requires forall s | s in visited :: s in w.owned
    requires forall s {:trigger Near(w.pieces, base, end, s)} | s in w.owned ::
      s in visited <==> Near(w.pieces, base, end, s)
    ensures Safe(w, base, end) <==> forall s, t | s in left && t in visited :: s.start() != t.start()
  {
    if Safe(w, base, end) {
      forall s, t | s in left && t in visited ensures s.start() != t.start() {
        assert !Near(w.pieces, base, end, s) && Near(w.pieces, base, end, t);
      }
    }
  }

  /** Where every owned segment is linked, removal is safe. */
  lemma NoneStaleIsSafe(w: World, base: u64, end: u64)
    requires Linked(w.graph) && w.owned == w.graph.Keys
    ensures Safe(w, base, end)
  {
    forall s, t | s in w.graph && t in w.owned && !Near(w.pieces, base, end, s) && Near(w.pieces, base, end, t)
      ensures s.start() != t.start()
    {
      assert OneStart(s, t);
    }
  }

  /** How a removal gets unsafe. Map [a, c) and fetch `a`; unmap [b, c): segment `s` is visited but stays owned
      by [a, b). Map [z, a) and fetch `a` again: the new segment `t` is filed in [z, a), which is found first.
      Unmapping [d, b) then visits only the stale `s`, and erases the registration of `t`. */
  lemma StaleSegmentIsUnsafe(z: u64, a: u64, d: u64, b: u64, c: u64, s: CodeSegment, t: CodeSegment)
    requires z < a < d < b < c && s != t && s.start() == t.start() == a && SegmentEnd(s) <= b
    ensures var mapped, cut := [Piece(a, c, multiset{s})], [Piece(a, b, multiset{s}), Piece(b, c, multiset{})];
      && FoundAt(mapped, a, 0) && mapped == WithItem([Piece(a, c, multiset{})], 0, s)
      && IsCut(mapped, b, c, SegmentEnd, cut, cut) && Visits(cut, b, c, 0, 2) && Erases(cut, b, c, 1, 2)
      && var left := Without(cut, 1, 2);
         InsertsAt(left, z, 0) && var again := Spliced(left, 0, Piece(z, a, multiset{}));
         FoundAt(again, a, 0) && var w := World({s, t}, map[t := EMPTY_NODE], WithItem(again, 0, t), false);
         Sorted(w.pieces) && !Safe(w, d, b)
  {
    var mapped, cut := [Piece(a, c, multiset{s})], [Piece(a, b, multiset{s}), Piece(b, c, multiset{})];
    var none: multiset<CodeSegment> := multiset{};
    assert none + multiset{s} == multiset{s} && none + multiset{t} == multiset{t};
    assert FoundAt(mapped, b, 0) && SplitAt(mapped, b, 0, SegmentEnd, cut);
    assert FoundAt(cut, c, 1) && SplitAt(cut, c, 1, SegmentEnd, cut);
    var left := Without(cut, 1, 2);
    assert left == [Piece(a, b, multiset{s})];
    var again := Spliced(left, 0, Piece(z, a, multiset{}));
    assert again == [Piece(z, a, multiset{}), Piece(a, b, multiset{s})];
    var w := World({s, t}, map[t := EMPTY_NODE], WithItem(again, 0, t), false);
    assert w.pieces == [Piece(z, a, multiset{t}), Piece(a, b, multiset{s})];
    assert s in w.pieces[1].items && Near(w.pieces, d, b, s);
    assert !Near(w.pieces, d, b, t);
  }

  /** A region stops being executable. Every segment near it is gone from graph and registry, and the two
      stay in step exactly when the removal is safe. */
  method Invalidate(p: Process, base: u64, end: u64, ghost w: World)
    returns (ghost v: World, ghost visited: seq<CodeSegment>)
    requires Good(p, w) && AllDetached(w.owned - w.graph.Keys) && base <= end
    modifies p`codeSegmentsByAddress, p.codeSegments`values, p.codeSegments`Repr, p.codeSegments.Repr
    modifies w.owned`fixedInfo, w.owned`variableInfo, w.owned`successors, w.owned`predecessors, w.owned`jitBasicBlock
    ensures Pictured(v.graph) && Linked(v.graph) && AllDetached(w.owned - v.graph.Keys)
    ensures p.Owns(v.owned, v.graph, v.pieces) && v.owned <= w.owned && !v.calm
    ensures v.graph.Keys == w.graph.Keys - (set s | s in visited)
    ensures forall s {:trigger s.ToHeat()} | s in v.graph :: s.ToHeat() == old(s.ToHeat())
    ensures KeepsCode(w.graph, v.graph) && Pruned(w.graph, v.graph, Among(visited))
    ensures p.codeSegmentsByAddress == old(p.codeSegmentsByAddress) - StartsOf(visited)
    ensures Good(p, v) <==> Safe(w, base, end)
    ensures Cleared(w.pieces, base, end, visited, v.pieces)
    ensures fresh(p.codeSegments.Repr - old(p.codeSegments.Repr))
  {
    ghost var h, kept, seen;
    h, kept, seen := p.OnRegionDestruction(base, end, w.owned, w.graph, w.pieces);
    visited := seen;
    v := World(ItemSet(kept), h, kept, false);
    RegistryAfterPurge(old(p.codeSegmentsByAddress), w.graph.Keys, visited);
    SafeIs(w, base, end, h.Keys, visited);
    assert p.InStep(h) <==> p.codeSegmentsByAddress.Values == h.Keys;
    forall s | s in h ensures s.ToHeat() == old(s.ToHeat()) { assert s.jitBasicBlock == old(s.jitBasicBlock); }
  }

  /** A region becomes executable. The intervals stay disjoint unless one from below reaches into it. */
  method Reserve(p: Process, base: u64, end: u64, ghost w: World) returns (ok: bool, ghost pos: nat, ghost v: World)
    requires Good(p, w) && base < end
    modifies p.codeSegments`values, p.codeSegments`Repr
    ensures InsertsAt(w.pieces, base, pos) && ok == (pos < |w.pieces| ==> end <= w.pieces[pos].start)
    ensures !Meets(w.pieces, base, end) ==> ok
    ensures v == w.(pieces := if ok then Spliced(w.pieces, pos, Piece(base, end, multiset{})) else w.pieces)
    ensures Good(p, v) <==> !ok || !Meets(w.pieces, base, end)
    ensures fresh(p.codeSegments.Repr - old(p.codeSegments.Repr))
  {
    ghost var qs;
    ok, pos, qs := p.OnRegionCreation(base, end, w.owned, w.graph, w.pieces);
    v := w.(pieces := qs);
    MeetsIff(w.pieces, base, end, pos);
  }
}
