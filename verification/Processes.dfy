/** A process's code: the registry of segments by start address, the interval vector that owns them,
    and their invalidation when a region stops being executable (emulator/src/kernel/linux/process.cpp). */
module Processes {
  import opened Types
  import opened CodeSegments
  import opened GraphLaws
  import opened IntervalLaws
  import opened IntervalVectors

  function SegmentStart(s: CodeSegment): u64 { s.block.start }

  function SegmentEnd(s: CodeSegment): u64 { s.block.end }

  ghost function StartsOf(segs: seq<CodeSegment>): set<u64> {
    set s | s in segs :: s.start()
  }

  ghost function Among(segs: seq<CodeSegment>): set<CodeSegment> {
    set s | s in segs
  }

  /** An unlinked segment: no edges, nothing to undo. */
  ghost predicate Detached(s: CodeSegment)
    reads s`successors, s`predecessors, s`fixedInfo
  {
    s.successors == map[] && s.predecessors == map[] && s.fixedInfo.Shaped()
  }

  ghost predicate AllDetached(segs: set<CodeSegment>)
    reads segs`successors, segs`predecessors, segs`fixedInfo
  {
    forall s {:trigger Detached(s)} | s in segs :: Detached(s)
  }

  /** The segments of `h` keep the compiled code they have in `g`. */
  ghost predicate KeepsCode(g: Graph, h: Graph) {
    h.Keys <= g.Keys && forall s {:trigger h[s]} | s in h :: h[s].jit == g[s].jit
  }

  /** The segments registered by address, and those left once `visited` are erased by their starts:
      none of them was visited, and they are all that is still linked unless a visited segment shares
      its start address with one that was not visited. */
  lemma RegistryAfterPurge(registry: map<u64, CodeSegment>, linked: set<CodeSegment>, visited: seq<CodeSegment>)
    requires registry.Values == linked && forall a | a in registry :: registry[a].start() == a
    ensures var left, r := linked - (set s | s in visited), registry - StartsOf(visited);
      && r.Values <= left
      && (r.Values == left <==> forall s, v | s in left && v in visited :: s.start() != v.start())
  {
    var left, r := linked - (set s | s in visited), registry - StartsOf(visited);
    forall s | s in r.Values ensures s in left {
      var a :| a in r && r[a] == s;
      assert registry[a] in registry.Values && s.start() == a;
    }
    forall s | s in left ensures s in r.Values <==> s.start() !in StartsOf(visited) {
      var a :| a in registry && registry[a] == s;
      if s.start() !in StartsOf(visited) { assert r[a] == s; }
    }
  }

  lemma RegisterNew(registry: map<u64, CodeSegment>, a: u64, s: CodeSegment)
    requires a !in registry
    ensures registry[a := s].Values == registry.Values + {s}
  {
    var r := registry[a := s];
    forall x | x in registry.Values + {s} ensures x in r.Values {
      if x != s {
        var b :| b in registry && registry[b] == x;
        assert r[b] == x;
      } else {
        assert r[a] == s;
      }
    }
  }

  lemma EraseClean(ps: seq<Piece<CodeSegment>>, start: u64, end: u64, itemEnd: CodeSegment -> u64,
                   qs: seq<Piece<CodeSegment>>, rs: seq<Piece<CodeSegment>>,
                   visitFirst: nat, visitAfter: nat, first: nat, afterLast: nat, visited: seq<CodeSegment>)
    requires Sorted(ps) && start <= end && IsCut(ps, start, end, itemEnd, qs, rs)
    requires Visits(rs, start, end, visitFirst, visitAfter) && Erases(rs, start, end, first, afterLast)
    requires Once(ps) && !Touches(ps, start) && multiset(visited) == Items(rs[visitFirst..visitAfter])
    ensures Once(Without(rs, first, afterLast))
    ensures ItemSet(Without(rs, first, afterLast)) == ItemSet(ps) - set s | s in visited
  {
    InvalidateClean(ps, start, end, itemEnd, qs, rs, visitFirst, visitAfter, first, afterLast);
    AllBut(ItemSet(ps), ItemSet(Without(rs, first, afterLast)), visited, Items(rs[visitFirst..visitAfter]));
  }

  /** What clearing [base, end) does: just the region stays uncovered, and the rest of an interval cut at
      `end`; just the segments near it are visited; and items stay housed. */
  ghost predicate Cleared(ps: seq<Piece<CodeSegment>>, base: u64, end: u64, visited: seq<CodeSegment>,
                          kept: seq<Piece<CodeSegment>>) {
    && (forall a: u64 {:trigger Covers(kept, a)} ::
          Covers(kept, a) <==> Covers(ps, a) && !(base <= a < end) && !Rest(ps, end, a))
    && (forall s | s in visited :: s in ItemSet(ps))
    && (forall s {:trigger Near(ps, base, end, s)} | s in ItemSet(ps) :: s in visited <==> Near(ps, base, end, s))
    && (Housed(ps, SegmentStart) ==> Housed(kept, SegmentStart))
  }

  lemma EraseClears(ps: seq<Piece<CodeSegment>>, start: u64, end: u64, qs: seq<Piece<CodeSegment>>,
                    rs: seq<Piece<CodeSegment>>, visitFirst: nat, visitAfter: nat, first: nat, afterLast: nat,
                    visited: seq<CodeSegment>)
    requires Sorted(ps) && start <= end && IsCut(ps, start, end, SegmentEnd, qs, rs)
    requires Visits(rs, start, end, visitFirst, visitAfter) && Erases(rs, start, end, first, afterLast)
    requires multiset(visited) == Items(rs[visitFirst..visitAfter])
    ensures Cleared(ps, start, end, visited, Without(rs, first, afterLast))
  {
    CutKeeps(ps, start, end, SegmentEnd, qs, rs);
    SliceInside(rs, visitFirst, visitAfter);
    forall s | s in visited ensures s in ItemSet(ps) { assert s in multiset(visited); }
    forall s | s in ItemSet(ps) ensures s in visited <==> Near(ps, start, end, s) {
      VisitedIff(ps, start, end, SegmentEnd, qs, rs, visitFirst, visitAfter, s);
      assert s in visited <==> s in multiset(visited);
    }
    forall a: u64 ensures Covers(Without(rs, first, afterLast), a) <==>
      Covers(ps, a) && !(start <= a < end) && !Rest(ps, end, a)
    {
      RemovalCovers(ps, start, end, SegmentEnd, qs, rs, first, afterLast, a);
    }
    if Housed(ps, SegmentStart) { RemovalHouses(ps, start, end, SegmentStart, SegmentEnd, qs, rs, first, afterLast); }
  }

  /** What is disassembled at `address` starts there. */
  predicate StartsAt(block: Option<BasicBlock>, address: u64) {
    block.Some? ==> block.value.start == address
  }

  /** The segment would be new, and no block can be disassembled or no interval ends at or after it. */
  ghost predicate Lost(registry: map<u64, CodeSegment>, ps: seq<Piece<CodeSegment>>, address: u64,
                       block: Option<BasicBlock>) {
    address !in registry && (block.None? || FoundAt(ps, address, |ps|))
  }

  lemma AllBut(all: set<CodeSegment>, kept: set<CodeSegment>, visited: seq<CodeSegment>, items: multiset<CodeSegment>)
    requires multiset(visited) == items && forall s :: s in kept <==> s in all && s !in items
    ensures kept == all - set s | s in visited
  {
    assert forall s :: s in visited <==> s in items;
  }

  lemma NoIntervals(segments: set<CodeSegment>, intervals: set<IntervalValue<CodeSegment>>)
    ensures segments !! intervals
  {}

  class Process {
    var codeSegments: IntervalVector<CodeSegment>
    var codeSegmentsByAddress: map<u64, CodeSegment>

    constructor ()
      ensures Owns({}, map[], []) && InStep(map[])
      ensures fresh(codeSegments) && codeSegments.Repr == {}
    {
      codeSegments := new IntervalVector(SegmentEnd);
      codeSegmentsByAddress := map[];
    }

    /** The registered segments are exactly the linked ones, those of `g`. */
    ghost predicate InStep(g: Graph)
      reads this
    {
      && codeSegmentsByAddress.Values == g.Keys
      && forall a | a in codeSegmentsByAddress :: codeSegmentsByAddress[a].start() == a
    }

    /** `ps` pictures the interval vector, and `owned` is what it owns; that includes every linked segment. */
    ghost predicate Owns(owned: set<CodeSegment>, g: Graph, ps: seq<Piece<CodeSegment>>)
      reads this, codeSegments, codeSegments.Repr
    {
      && codeSegments.Pictures(ps) && Sorted(ps) && codeSegments.itemEnd == SegmentEnd
      && owned == ItemSet(ps) && g.Keys <= owned
    }

    /** The segment starting at `address`: the registered one or, if there is none, a new one made from
        the `block` disassembled there. Fails when there is no such block, or no interval ends at or after
        the address. */
    method FetchSegment(address: u64, block: Option<BasicBlock>, ghost owned: set<CodeSegment>, ghost g: Graph,
                        ghost ps: seq<Piece<CodeSegment>>)
      returns (seg: CodeSegment?, ghost h: Graph, ghost qs: seq<Piece<CodeSegment>>)
      requires Owns(owned, g, ps) && InStep(g) && StartsAt(block, address)
      modifies this`codeSegmentsByAddress, codeSegments.Repr
      ensures seg != null ==> Owns(owned + {seg}, h, qs) && InStep(h) && seg.start() == address
      ensures unchanged(owned) && (seg != null && Once(ps) ==> Once(qs))
      ensures seg == null <==> Lost(old(codeSegmentsByAddress), ps, address, block)
      ensures seg == null ==> Owns(owned, g, ps) && InStep(g) && codeSegmentsByAddress == old(codeSegmentsByAddress)
      ensures seg != null ==> Grows(ps, qs, SegmentStart)
      ensures address !in old(codeSegmentsByAddress) && seg != null ==>
        && fresh(seg) && Some(seg.block) == block && seg.New() && seg.ToNode() == EMPTY_NODE
        && codeSegmentsByAddress == old(codeSegmentsByAddress)[address := seg] && h == g[seg := EMPTY_NODE]
      ensures address in old(codeSegmentsByAddress) ==>
        && seg == old(codeSegmentsByAddress)[address] && h == g && qs == ps
        && codeSegmentsByAddress == old(codeSegmentsByAddress)
    {
      if address in codeSegmentsByAddress {
        seg := codeSegmentsByAddress[address];
        assert seg in codeSegmentsByAddress.Values;
        assert owned + {seg} == owned;
        return seg, g, ps;
      }
      if block.None? { return null, g, ps; }
      seg, h, qs := CreateSegment(address, block.value, owned, g, ps);
    }

    method CreateSegment(address: u64, block: BasicBlock, ghost owned: set<CodeSegment>, ghost g: Graph,
                         ghost ps: seq<Piece<CodeSegment>>)
      returns (seg: CodeSegment?, ghost h: Graph, ghost qs: seq<Piece<CodeSegment>>)
      requires Owns(owned, g, ps) && InStep(g) && block.start == address && address !in codeSegmentsByAddress
      modifies this`codeSegmentsByAddress, codeSegments.Repr
      ensures seg == null <==> FoundAt(ps, address, |ps|)
      ensures seg == null ==> Owns(owned, g, ps) && codeSegmentsByAddress == old(codeSegmentsByAddress)
      ensures unchanged(owned) && (seg != null && Once(ps) ==> Once(qs))
      ensures seg != null ==> Grows(ps, qs, SegmentStart)
      ensures seg != null ==>
        && Owns(owned + {seg}, h, qs) && InStep(h)
        && fresh(seg) && seg.block == block && seg.New() && seg.ToNode() == EMPTY_NODE
        && codeSegmentsByAddress == old(codeSegmentsByAddress)[address := seg] && h == g[seg := EMPTY_NODE]
    {
      h, qs := g, ps;
      var newSeg := new CodeSegment(block);
      ghost var i;
      var ok;
      ok, i := codeSegments.Add(newSeg.start(), newSeg, ps);
      if !ok { return null, g, ps; }
      seg := newSeg;
      RegisterNew(codeSegmentsByAddress, address, seg);
      codeSegmentsByAddress := codeSegmentsByAddress[address := seg];
      WithItemKeeps(ps, i, seg);
      WithItemGrows(ps, i, seg, SegmentStart);
      if Once(ps) { WithItemOnce(ps, i, seg); }
      qs := WithItem(ps, i, seg);
      h := g[seg := EMPTY_NODE];
    }

    /** Unlinks and unregisters `visited` one by one. */
    method Purge(visited: seq<CodeSegment>, ghost owned: set<CodeSegment>, ghost g: Graph) returns (ghost h: Graph)
      requires Pictured(g) && Linked(g) && g.Keys <= owned && AllDetached(owned - g.Keys)
      requires forall s | s in visited :: s in owned
      modifies this`codeSegmentsByAddress
      modifies owned`fixedInfo, owned`variableInfo, owned`successors, owned`predecessors, owned`jitBasicBlock
      ensures Pictured(h) && Linked(h) && AllDetached(owned - h.Keys)
      ensures KeepsCode(g, h) && h.Keys == g.Keys - set s | s in visited
      ensures codeSegmentsByAddress == old(codeSegmentsByAddress) - StartsOf(visited)
      ensures Pruned(g, h, Among(visited))
      ensures forall s {:trigger s.jitBasicBlock} | s in owned && s !in visited ::
        s.jitBasicBlock == old(s.jitBasicBlock)
    {
      h := g;
      NothingPruned(g);
      ghost var gone, starts := {}, {};
      for i := 0 to |visited|
        invariant Pictured(h) && Linked(h) && AllDetached(owned - h.Keys) && Pruned(g, h, gone)
        invariant codeSegmentsByAddress == old(codeSegmentsByAddress) - starts
        invariant forall s {:trigger s.jitBasicBlock} | s in owned && s !in gone ::
          s.jitBasicBlock == old(s.jitBasicBlock)
        invariant gone == Among(visited[..i]) && starts == StartsOf(visited[..i])
      {
        var seg := visited[i];
        h := PurgeOne(seg, owned, g, h, gone);
        gone, starts := gone + {seg}, starts + {seg.start()};
        assert visited[..i+1] == visited[..i] + [seg];
      }
      assert visited[..|visited|] == visited;
      PrunedKeepsCode(g, h, gone);
    }

    method PurgeOne(seg: CodeSegment, ghost owned: set<CodeSegment>, ghost g: Graph, ghost h: Graph,
                    ghost gone: set<CodeSegment>)
      returns (ghost k: Graph)
      requires Linked(g) && g.Keys <= owned && seg in owned
      requires Pictured(h) && Linked(h) && AllDetached(owned - h.Keys) && Pruned(g, h, gone)
      modifies this`codeSegmentsByAddress
      modifies owned`fixedInfo, owned`variableInfo, owned`successors, owned`predecessors, owned`jitBasicBlock
      ensures Pictured(k) && Linked(k) && AllDetached(owned - k.Keys) && Pruned(g, k, gone + {seg})
      ensures codeSegmentsByAddress == old(codeSegmentsByAddress) - {seg.start()}
      ensures forall s {:trigger s.jitBasicBlock} | s in owned && s != seg :: s.jitBasicBlock == old(s.jitBasicBlock)
    {
      codeSegmentsByAddress := codeSegmentsByAddress - {seg.start()};
      k := Forget(seg, owned, h);
      if seg in h { UnlinkPrunes(g, h, gone, seg); } else { StrangerPrunes(g, h, gone, seg); }
    }

    lemma PrunedKeepsCode(g: Graph, h: Graph, gone: set<CodeSegment>)
      requires Pruned(g, h, gone)
      ensures KeepsCode(g, h)
    {
      forall s | s in h ensures h[s].jit == g[s].jit { assert PrunedAt(g, h, gone, s); }
    }

    method Forget(seg: CodeSegment, ghost all: set<CodeSegment>, ghost g: Graph) returns (ghost h: Graph)
      requires Pictured(g) && Linked(g) && seg in all && AllDetached(all - g.Keys)
      modifies seg`fixedInfo, seg`variableInfo, seg`successors, seg`predecessors, seg`jitBasicBlock
      modifies g.Keys`fixedInfo, g.Keys`variableInfo, g.Keys`successors, g.Keys`predecessors
      ensures Pictured(h) && Linked(h) && AllDetached(all - h.Keys)
      ensures seg in g ==> AllShaped(g) && h == Unlink(g, seg)
      ensures seg !in g ==> h == g
    {
      ghost var k := g;
      if seg in g {
        EdgesLeadInside(g, seg);
        UnlinkKeepsLinked(g, seg);
        h := Unlink(g, seg);
      } else {
        assert Detached(seg);
        k, h := g[seg := seg.ToNode()], g;
        DetachedLeaves(g, seg, seg.ToNode());
      }
      seg.RemoveFromCaches(k);
      forall s | s in all && s !in h ensures Detached(s) { assert s == seg || old(Detached(s)); }
    }

    /** Collects the segments filed in intervals that touch [base, end]. */
    method Collect(base: u64, end: u64, ghost ps: seq<Piece<CodeSegment>>)
      returns (segs: seq<CodeSegment>, ghost qs: seq<Piece<CodeSegment>>, ghost rs: seq<Piece<CodeSegment>>,
               ghost first: nat, ghost afterLast: nat)
      requires codeSegments.Pictures(ps) && Sorted(ps) && base <= end
      modifies codeSegments`values, codeSegments`Repr, codeSegments.Repr
      ensures IsCut(ps, base, end, codeSegments.itemEnd, qs, rs) && Visits(rs, base, end, first, afterLast)
      ensures codeSegments.Pictures(rs) && Sorted(rs) && multiset(segs) == Items(rs[first..afterLast])
      ensures forall s | s in segs :: s in ItemSet(ps)
      ensures fresh(codeSegments.Repr - old(codeSegments.Repr))
    {
      segs, qs, rs, first, afterLast := codeSegments.ForEach(base, end, ps);
      CutKeeps(ps, base, end, codeSegments.itemEnd, qs, rs);
      SliceInside(rs, first, afterLast);
      forall s | s in segs ensures s in ItemSet(ps) { assert s in multiset(segs); }
    }

    /** Unlinks and unregisters every segment filed in an interval that touches [base, end]. */
    method UnlinkRegion(base: u64, end: u64, ghost owned: set<CodeSegment>, ghost g: Graph,
                        ghost ps: seq<Piece<CodeSegment>>)
      returns (ghost h: Graph, visited: seq<CodeSegment>, ghost qs: seq<Piece<CodeSegment>>,
               ghost rs: seq<Piece<CodeSegment>>, ghost first: nat, ghost after: nat)
      requires Pictured(g) && Linked(g) && Owns(owned, g, ps) && AllDetached(owned - g.Keys) && base <= end
      modifies this`codeSegmentsByAddress, codeSegments`values, codeSegments`Repr, codeSegments.Repr
      modifies owned`fixedInfo, owned`variableInfo, owned`successors, owned`predecessors, owned`jitBasicBlock
      ensures Pictured(h) && Linked(h) && AllDetached(owned - h.Keys)
      ensures KeepsCode(g, h) && h.Keys == g.Keys - set s | s in visited
      ensures Pruned(g, h, Among(visited))
      ensures forall s {:trigger s.jitBasicBlock} | s in owned && s !in visited ::
        s.jitBasicBlock == old(s.jitBasicBlock)
      ensures codeSegmentsByAddress == old(codeSegmentsByAddress) - StartsOf(visited)
      ensures IsCut(ps, base, end, SegmentEnd, qs, rs) && Visits(rs, base, end, first, after)
      ensures multiset(visited) == Items(rs[first..after]) && forall s | s in visited :: s in owned
      ensures codeSegments.Pictures(rs) && Sorted(rs) && fresh(codeSegments.Repr - old(codeSegments.Repr))
    {
      visited, qs, rs, first, after := Collect(base, end, ps);
      h := Purge(visited, owned, g);
    }

    /** A region becomes executable: an interval is reserved for it. That fails when it reaches into the
        next one, and leaves overlapping intervals when the one before reaches into it. */
    method OnRegionCreation(base: u64, end: u64, ghost owned: set<CodeSegment>, ghost g: Graph,
                            ghost ps: seq<Piece<CodeSegment>>)
      returns (ok: bool, ghost pos: nat, ghost qs: seq<Piece<CodeSegment>>)
      requires Owns(owned, g, ps) && base < end
      modifies codeSegments`values, codeSegments`Repr
      ensures InsertsAt(ps, base, pos) && ok == (pos < |ps| ==> end <= ps[pos].start)
      ensures qs == if ok then Spliced(ps, pos, Piece(base, end, multiset{})) else ps
      ensures Owns(owned, g, qs) <==> !ok || pos == 0 || ps[pos-1].end <= base
      ensures fresh(codeSegments.Repr - old(codeSegments.Repr))
    {
      ok, pos := codeSegments.Reserve(base, end, ps);
      qs := if ok then Spliced(ps, pos, Piece(base, end, multiset{})) else ps;
      if ok {
        InsertKeepsIff(ps, Piece(base, end, multiset{}), pos);
        SplicedItems(ps, pos, Piece(base, end, multiset{}));
      }
    }

    /** A region stops being executable: its segments are unlinked and unregistered, then its intervals
        are erased. `kept` pictures what the vector still owns: all it owned but visited segments. */
    method OnRegionDestruction(base: u64, end: u64, ghost owned: set<CodeSegment>, ghost g: Graph,
                               ghost ps: seq<Piece<CodeSegment>>)
      returns (ghost h: Graph, ghost kept: seq<Piece<CodeSegment>>, visited: seq<CodeSegment>)
      requires Pictured(g) && Linked(g) && Owns(owned, g, ps) && AllDetached(owned - g.Keys) && base <= end
      modifies this`codeSegmentsByAddress, codeSegments`values, codeSegments`Repr, codeSegments.Repr
      modifies owned`fixedInfo, owned`variableInfo, owned`successors, owned`predecessors, owned`jitBasicBlock
      ensures Pictured(h) && Linked(h) && AllDetached(owned - h.Keys)
      ensures Owns(ItemSet(kept), h, kept)
      ensures KeepsCode(g, h) && h.Keys == g.Keys - set s | s in visited
      ensures Pruned(g, h, Among(visited))
      ensures forall s {:trigger s.jitBasicBlock} | s in owned && s !in visited ::
        s.jitBasicBlock == old(s.jitBasicBlock)
      ensures codeSegmentsByAddress == old(codeSegmentsByAddress) - StartsOf(visited)
      ensures ItemSet(kept) <= owned <= ItemSet(kept) + set s | s in visited
      ensures forall s | s in visited :: s in owned
      ensures Once(ps) && !Touches(ps, base) ==> Once(kept) && ItemSet(kept) == owned - set s | s in visited
      ensures Cleared(ps, base, end, visited, kept)
      ensures fresh(codeSegments.Repr - old(codeSegments.Repr))
    {
      ghost var qs, rs, first, after;
      h, visited, qs, rs, first, after := UnlinkRegion(base, end, owned, g, ps);
      NoIntervals(owned, codeSegments.Repr);
      kept := Erase(base, end, visited, ps, qs, rs, first, after);
    }

    /** Erases the region's intervals, after its segments were visited. */
    method Erase(base: u64, end: u64, ghost visited: seq<CodeSegment>, ghost ps: seq<Piece<CodeSegment>>,
                 ghost qs: seq<Piece<CodeSegment>>, ghost rs: seq<Piece<CodeSegment>>, ghost first: nat,
                 ghost after: nat)
      returns (ghost kept: seq<Piece<CodeSegment>>)
      requires Sorted(ps) && base <= end && codeSegments.itemEnd == SegmentEnd
      requires IsCut(ps, base, end, SegmentEnd, qs, rs)
      requires Visits(rs, base, end, first, after) && multiset(visited) == Items(rs[first..after])
      requires codeSegments.Pictures(rs) && Sorted(rs)
      modifies codeSegments`values, codeSegments`Repr, codeSegments.Repr
      ensures codeSegments.Pictures(kept) && Sorted(kept)
      ensures ItemSet(kept) <= ItemSet(ps) <= ItemSet(kept) + set s | s in visited
      ensures Once(ps) && !Touches(ps, base) ==> Once(kept) && ItemSet(kept) == ItemSet(ps) - set s | s in visited
      ensures Cleared(ps, base, end, visited, kept)
      ensures fresh(codeSegments.Repr - old(codeSegments.Repr))
    {
      ghost var qs', rs', first', after';
      qs', rs', first', after' := codeSegments.Remove(base, end, rs);
      kept := Without(rs', first', after');
      InvalidateKeeps(ps, base, end, codeSegments.itemEnd, qs, rs, first, after, qs', rs', first', after');
      forall s | s in ItemSet(ps) && s !in ItemSet(kept) ensures s in visited { assert s in multiset(visited); }
      if Once(ps) && !Touches(ps, base) {
        EraseClean(ps, base, end, codeSegments.itemEnd, qs, rs, first, after, first', after', visited);
      }
      EraseClears(ps, base, end, qs, rs, first, after, first', after', visited);
    }

    lemma DetachedLeaves(g: Graph, s: CodeSegment, n: Node)
      requires Linked(g) && s !in g && n.successors == map[] && n.predecessors == map[] && n.fixedInfo.Shaped()
      ensures Detachable(g[s := n], s) && Unlink(g[s := n], s) == g
    {
      forall x | x in g ensures g[x].fixedInfo.Shaped() { assert NodeLinked(g, x); }
    }
  }
}
