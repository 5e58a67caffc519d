/** What every step of the control-flow graph keeps, and what whole runs of steps keep. */
module GraphLaws {
  import opened Types
  import opened CodeSegments

  /** A fresh segment joins without edges. */
  lemma CreateKeepsLinked(g: Graph, s: CodeSegment)
    requires Linked(g) && s !in g && forall t | t in g :: t.start() != s.start()
    ensures Linked(g[s := EMPTY_NODE])
  {
    var h := g[s := EMPTY_NODE];
    forall x | x in h ensures NodeLinked(h, x) { assert x != s ==> NodeLinked(g, x); }
    forall x, y | x in h && y in h ensures Mirrored(h, x, y) {
      assert x != s ==> NodeLinked(g, x);
      assert y != s ==> NodeLinked(g, y);
      assert x != s && y != s ==> Mirrored(g, x, y);
    }
  }

  /** The graph after a hit in slot `i` of segment `s`. */
  ghost function Touch(g: Graph, s: CodeSegment, i: nat): (r: Graph)
    requires s in g && g[s].fixedInfo.Shaped() && i < 2
    ensures r.Keys == g.Keys
  {
    g[s := g[s].(fixedInfo := g[s].fixedInfo.Touched(i))]
  }

  lemma TouchKeepsLinked(g: Graph, s: CodeSegment, i: nat)
    requires Linked(g) && s in g && g[s].fixedInfo.Shaped() && i < 2
    ensures Linked(Touch(g, s, i))
  {
    var h := Touch(g, s, i);
    forall x | x in h ensures NodeLinked(h, x) { assert NodeLinked(g, x); }
    forall x, y | x in h && y in h ensures Mirrored(h, x, y) {
      assert Mirrored(g, x, y);
    }
  }

  /** Inserting an edge adds it and nothing else, also when it was there already. */
  lemma InsertFiles(m: map<u64, CodeSegment>, t: CodeSegment, live: set<CodeSegment>)
    requires EdgesInside(m, live) && t in live && UniqueStarts(live)
    ensures EdgesInside(Inserted(m, t.start(), t), live)
    ensures forall x | x in live :: Filed(Inserted(m, t.start(), t), x) <==> x == t || Filed(m, x)
  {
    assert forall x | x in live :: OneStart(x, t);
  }

  /** Erasing by start address removes one edge and nothing else. */
  lemma EraseFiles(m: map<u64, CodeSegment>, t: CodeSegment, live: set<CodeSegment>)
    requires EdgesInside(m, live) && t in live && UniqueStarts(live)
    ensures EdgesInside(m - {t.start()}, live - {t})
    ensures forall x | x in live :: Filed(m - {t.start()}, x) <==> x != t && Filed(m, x)
    ensures !Filed(m, t) ==> m - {t.start()} == m
  {
    assert forall x | x in live :: OneStart(x, t);
    assert t.start() in m ==> OneStart(m[t.start()], t);
  }

  lemma AddedTableLinked(g: Graph, s: CodeSegment, t: CodeSegment)
    requires s in g && t in g && UniqueStarts(g.Keys) && NodeLinked(g, s)
    ensures TableLinked(AddedTable(g, s, t), Inserted(g[s].successors, t.start(), t), s.Fixed())
  {
    InsertFiles(g[s].successors, t, g.Keys);
    var v, w := g[s].variableInfo, AddedTable(g, s, t);
    forall i | 0 <= i < |v.next| ensures v.next[i] in g { assert Filed(g[s].successors, v.next[i]); }
    if w.next != v.next {
      assert w.next == v.next + [t];
      assert !Filed(g[s].successors, t);
    }
  }

  lemma AddedNodeLinked(g: Graph, s: CodeSegment, t: CodeSegment)
    requires s in g && t in g && UniqueStarts(g.Keys) && NodeLinked(g, s) && CanAdd(g, s)
    ensures var n := AddedNode(g, s, t);
      && EdgesInside(n.successors, g.Keys)
      && SlotsLinked(n.fixedInfo, n.successors, s.Fixed())
      && TableLinked(n.variableInfo, n.successors, s.Fixed())
  {
    AddedTableLinked(g, s, t);
    InsertFiles(g[s].successors, t, g.Keys);
  }

  /** The edges of the graph after `s` learns of `t`: the old ones and that one, in both directions. */
  lemma AddEdgeEdges(g: Graph, s: CodeSegment, t: CodeSegment, x: CodeSegment, y: CodeSegment)
    requires s in g && t in g && x in g && y in g && UniqueStarts(g.Keys)
    requires NodeLinked(g, s) && NodeLinked(g, t) && CanAdd(g, s)
    ensures AddEdge(g, s, t)[x].Succ(y) <==> g[x].Succ(y) || (x == s && y == t)
    ensures AddEdge(g, s, t)[y].Pred(x) <==> g[y].Pred(x) || (x == s && y == t)
  {
    InsertFiles(g[s].successors, t, g.Keys);
    InsertFiles(g[t].predecessors, s, g.Keys);
  }

  lemma AddEdgeKeepsNode(g: Graph, s: CodeSegment, t: CodeSegment, x: CodeSegment)
    requires s in g && t in g && x in g && UniqueStarts(g.Keys)
    requires NodeLinked(g, s) && NodeLinked(g, t) && NodeLinked(g, x) && CanAdd(g, s)
    ensures NodeLinked(AddEdge(g, s, t), x)
  {
    AddedNodeLinked(g, s, t);
    InsertFiles(g[t].predecessors, s, g.Keys);
  }

  /** Learning an edge keeps the graph linked, whether or not the edge was known, self-loops included. */
  lemma AddEdgeKeepsLinked(g: Graph, s: CodeSegment, t: CodeSegment)
    requires Linked(g) && s in g && t in g && NodeLinked(g, s) && CanAdd(g, s)
    ensures Linked(AddEdge(g, s, t))
    ensures AddEdge(g, s, t)[s].Succ(t)
  {
    var h := AddEdge(g, s, t);
    forall x | x in h ensures NodeLinked(h, x) { AddEdgeKeepsNode(g, s, t, x); }
    forall x, y | x in h && y in h ensures Mirrored(h, x, y) {
      AddEdgeEdges(g, s, t, x, y);
      assert Mirrored(g, x, y);
    }
    AddEdgeEdges(g, s, t, s, t);
  }

  lemma WithoutAbsent(f: FixedDestinationInfo, t: CodeSegment)
    requires f.Shaped() && f.next[0] != t && f.next[1] != t
    ensures f.Without(t) == f
  {
    assert f.Without(t).next == f.next && f.Without(t).nextCount == f.nextCount;
  }

  lemma UnlinkNode(g: Graph, t: CodeSegment, s: CodeSegment)
    requires t in g && s in g && s != t && AllShaped(g) && UniqueStarts(g.Keys)
    requires NodeLinked(g, s) && NodeLinked(g, t) && Mirrored(g, s, t) && Mirrored(g, t, s)
    ensures var n, r := g[s], Unlink(g, t)[s];
      && r.successors == n.successors - {t.start()}
      && r.predecessors == n.predecessors - {t.start()}
      && r.jit == n.jit
      && r.fixedInfo == n.fixedInfo.Without(t)
      && r.variableInfo == if n.Succ(t) && !s.Fixed() then NO_DESTINATIONS else n.variableInfo
  {
    EraseFiles(g[s].successors, t, g.Keys);
    EraseFiles(g[s].predecessors, t, g.Keys);
    EraseFiles(g[t].successors, t, g.Keys);
    var g1 := DroppedByPredecessors(g, t);
    assert Filed(g1[t].successors, s) <==> g[t].Succ(s);
    if !g[s].Succ(t) || !s.Fixed() { WithoutAbsent(g[s].fixedInfo, t); }
  }

  lemma UnlinkKeepsNode(g: Graph, t: CodeSegment, s: CodeSegment)
    requires t in g && s in g && s != t && AllShaped(g) && UniqueStarts(g.Keys)
    requires NodeLinked(g, s) && NodeLinked(g, t) && Mirrored(g, s, t) && Mirrored(g, t, s)
    ensures NodeLinked(Unlink(g, t), s)
  {
    UnlinkNode(g, t, s);
    EraseFiles(g[s].successors, t, g.Keys);
    EraseFiles(g[s].predecessors, t, g.Keys);
  }

  /** Exactly what unlinking `t` does to every other segment: the edges from and to `t` go, slots that held `t`
      are emptied and the others stay with their counts, a lookup table that could hold `t` is dropped whole,
      nothing else moves. */
  lemma UnlinkExact(g: Graph, t: CodeSegment, s: CodeSegment)
    requires Linked(g) && t in g && s in g && s != t && AllShaped(g)
    ensures var n, r := g[s], Unlink(g, t)[s];
      && r.successors == n.successors - {t.start()}
      && r.predecessors == n.predecessors - {t.start()}
      && r.jit == n.jit
      && n.fixedInfo.Shaped() && r.fixedInfo.Shaped() && (forall i | 0 <= i < 2 ::
           if n.fixedInfo.next[i] == t then r.fixedInfo.next[i] == null && r.fixedInfo.nextCount[i] == 0
           else r.fixedInfo.next[i] == n.fixedInfo.next[i] && r.fixedInfo.nextCount[i] == n.fixedInfo.nextCount[i])
      && r.variableInfo == if n.Succ(t) && !s.Fixed() then VariableDestinationInfo([], [], [], []) else n.variableInfo
    ensures NodeLinked(Unlink(g, t), s)
  {
    UnlinkNode(g, t, s);
    UnlinkKeepsNode(g, t, s);
  }

  /** Unlinking keeps the graph linked: nobody left mentions `t` in an edge map, a slot or a vector. */
  lemma UnlinkKeepsLinked(g: Graph, t: CodeSegment)
    requires Linked(g) && t in g && AllShaped(g)
    ensures Linked(Unlink(g, t))
  {
    var h := Unlink(g, t);
    forall s | s in h ensures NodeLinked(h, s) { UnlinkExact(g, t, s); }
    forall x, y | x in h && y in h ensures Mirrored(h, x, y) {
      UnlinkExact(g, t, x);
      UnlinkExact(g, t, y);
      assert Mirrored(g, x, y) && NodeLinked(g, x) && NodeLinked(g, y);
      EraseFiles(g[x].successors, t, g.Keys);
      EraseFiles(g[y].predecessors, t, g.Keys);
    }
  }

  /** Node `r` is what is left of node `n` of a block once the segments of `gone` are: edges to and from them are
      gone, slots that held them are empty and the others stay with their counts, and a lookup table that could hold
      one of them is dropped whole. */
  ghost predicate PrunedNode(n: Node, r: Node, fixed: bool, gone: set<CodeSegment>) {
    && r.successors == (map a | a in n.successors && n.successors[a] !in gone :: n.successors[a])
    && r.predecessors == (map a | a in n.predecessors && n.predecessors[a] !in gone :: n.predecessors[a])
    && r.jit == n.jit && n.fixedInfo.Shaped() && r.fixedInfo.Shaped()
    && (forall i | 0 <= i < 2 ::
          if n.fixedInfo.next[i] != null && n.fixedInfo.next[i] in gone
          then r.fixedInfo.next[i] == null && r.fixedInfo.nextCount[i] == 0
          else r.fixedInfo.next[i] == n.fixedInfo.next[i] && r.fixedInfo.nextCount[i] == n.fixedInfo.nextCount[i])
    && r.variableInfo == if !fixed && LosesSome(n, gone) then NO_DESTINATIONS else n.variableInfo
  }

  ghost predicate LosesSome(n: Node, gone: set<CodeSegment>) {
    exists t | t in gone :: n.Succ(t)
  }

  /** What is left of graph `g` once the segments of `gone` are. */
  ghost predicate Pruned(g: Graph, h: Graph, gone: set<CodeSegment>) {
    && h.Keys == g.Keys - gone
    && forall s {:trigger PrunedAt(g, h, gone, s)} | s in h :: PrunedAt(g, h, gone, s)
  }

  ghost predicate PrunedAt(g: Graph, h: Graph, gone: set<CodeSegment>, s: CodeSegment)
    requires s in g && s in h
  {
    PrunedNode(g[s], h[s], s.Fixed(), gone)
  }

  lemma NothingPruned(g: Graph)
    requires Linked(g)
    ensures Pruned(g, g, {})
  {
    forall s | s in g ensures PrunedAt(g, g, {}, s) { assert NodeLinked(g, s); }
  }

  /** Erasing an edge by its start address is leaving out the segment. */
  lemma EraseIsFilter(m: map<u64, CodeSegment>, gone: set<CodeSegment>, r: map<u64, CodeSegment>, t: CodeSegment,
                      live: set<CodeSegment>)
    requires r == (map a | a in m && m[a] !in gone :: m[a]) && EdgesInside(r, live) && t in live && UniqueStarts(live)
    requires forall a | a in m :: m[a].start() == a
    ensures r - {t.start()} == map a | a in m && m[a] !in gone + {t} :: m[a]
  {
    forall a | a in r ensures a == t.start() <==> r[a] == t { assert OneStart(r[a], t); }
  }

  /** One more segment goes. */
  lemma UnlinkPrunes(g: Graph, h: Graph, gone: set<CodeSegment>, t: CodeSegment)
    requires Linked(g) && Linked(h) && Pruned(g, h, gone) && t in h && AllShaped(h)
    ensures Pruned(g, Unlink(h, t), gone + {t})
  {
    forall s | s in h && s != t ensures PrunedAt(g, Unlink(h, t), gone + {t}, s) {
      UnlinkPrunesNode(g, h, gone, t, s);
    }
  }

  lemma UnlinkPrunesNode(g: Graph, h: Graph, gone: set<CodeSegment>, t: CodeSegment, s: CodeSegment)
    requires Linked(g) && Linked(h) && Pruned(g, h, gone) && t in h && s in h && s != t && AllShaped(h)
    ensures PrunedNode(g[s], Unlink(h, t)[s], s.Fixed(), gone + {t})
  {
    UnlinkExact(h, t, s);
    assert NodeLinked(g, s) && NodeLinked(h, s) && PrunedAt(g, h, gone, s);
    EraseIsFilter(g[s].successors, gone, h[s].successors, t, h.Keys);
    EraseIsFilter(g[s].predecessors, gone, h[s].predecessors, t, h.Keys);
    LosesOne(g[s], h[s], s.Fixed(), gone, t);
  }

  /** What was not linked, or is gone already, takes nothing along. */
  lemma StrangerPrunes(g: Graph, h: Graph, gone: set<CodeSegment>, t: CodeSegment)
    requires Linked(g) && Pruned(g, h, gone) && t !in h
    ensures Pruned(g, h, gone + {t})
  {
    if t in gone {
      assert gone + {t} == gone;
    } else {
      forall s | s in h ensures PrunedAt(g, h, gone + {t}, s) {
        assert NodeLinked(g, s) && PrunedAt(g, h, gone, s);
        LosesOne(g[s], h[s], s.Fixed(), gone, t);
      }
    }
  }

  lemma LosesOne(n: Node, r: Node, fixed: bool, gone: set<CodeSegment>, t: CodeSegment)
    requires PrunedNode(n, r, fixed, gone) && t !in gone
    ensures LosesSome(n, gone + {t}) <==> LosesSome(n, gone) || r.Succ(t)
  {
    assert r.Succ(t) <==> n.Succ(t);
    if n.Succ(t) { assert t in gone + {t}; }
    if LosesSome(n, gone) {
      var x :| x in gone && n.Succ(x);
      assert x in gone + {t};
    }
  }

  lemma AddEdgeKeepsFresh(g: Graph, s: CodeSegment, t: CodeSegment)
    requires Linked(g) && s in g && t in g && NodeLinked(g, s) && CanAdd(g, s) && TablesFresh(g)
    ensures TablesFresh(AddEdge(g, s, t))
  {
    var h := AddEdge(g, s, t);
    forall x | x in h ensures TableFresh(h, x) { assert TableFresh(g, x); }
  }

  lemma UnlinkKeepsFresh(g: Graph, t: CodeSegment)
    requires Linked(g) && t in g && AllShaped(g) && TablesFresh(g)
    ensures TablesFresh(Unlink(g, t))
  {
    var h := Unlink(g, t);
    forall x | x in h ensures TableFresh(h, x) {
      UnlinkExact(g, t, x);
      assert TableFresh(g, x) && NodeLinked(g, x);
      forall i | 0 <= i < |g[x].variableInfo.next| && g[x].variableInfo.next[i] in h
        ensures h[g[x].variableInfo.next[i]].jit == g[g[x].variableInfo.next[i]].jit
      {
        UnlinkExact(g, t, g[x].variableInfo.next[i]);
      }
    }
  }

  /** One step of a run: a block is created, control is recorded or found in a slot, a block is
      compiled, or a block is removed. A step that is not possible does nothing. */
  datatype Step =
    | Create(s: CodeSegment)
    | Learn(s: CodeSegment, t: CodeSegment)
    | Hit(s: CodeSegment, slot: nat)
    | Compile(s: CodeSegment, jit: JitBlock)
    | Remove(s: CodeSegment)
  {
    ghost predicate Possible(g: Graph) {
      match this
      case Create(s) => s !in g && forall t | t in g :: t.start() != s.start()
      case Learn(s, t) => s in g && t in g && NodeLinked(g, s) && CanAdd(g, s)
      case Hit(s, slot) => s in g && g[s].fixedInfo.Shaped() && slot < 2
      case Compile(s, _) => s in g && TablesInside(g)
      case Remove(s) => s in g && AllShaped(g)
    }

    ghost function Apply(g: Graph, chaining: bool): Graph {
      if !Possible(g) then g else
      match this
      case Create(s) => g[s := EMPTY_NODE]
      case Learn(s, t) => AddEdge(g, s, t)
      case Hit(s, slot) => Touch(g, s, slot)
      case Compile(s, j) => Compiled(g, s, j, chaining)
      case Remove(s) => Unlink(g, s)
    }
  }

  ghost function Run(steps: seq<Step>, chaining: bool): Graph {
    if steps == [] then map[]
    else steps[|steps|-1].Apply(Run(steps[..|steps|-1], chaining), chaining)
  }

  lemma StepKeeps(step: Step, g: Graph, chaining: bool)
    requires Linked(g) && (chaining ==> TablesFresh(g))
    ensures Linked(step.Apply(g, chaining))
    ensures chaining ==> TablesFresh(step.Apply(g, chaining))
  {
    if step.Possible(g) {
      match step
      case Create(s) =>
        CreateKeepsLinked(g, s);
        if chaining {
          var h := g[s := EMPTY_NODE];
          forall x | x in h ensures TableFresh(h, x) { assert x != s ==> TableFresh(g, x) && NodeLinked(g, x); }
        }
      case Learn(s, t) => AddEdgeKeepsLinked(g, s, t); if chaining { AddEdgeKeepsFresh(g, s, t); }
      case Hit(s, slot) =>
        TouchKeepsLinked(g, s, slot);
        if chaining {
          var h := Touch(g, s, slot);
          forall x | x in h ensures TableFresh(h, x) { assert TableFresh(g, x); }
        }
      case Compile(s, j) => CompiledKeepsLinked(g, s, j, chaining); if chaining { CompiledKeepsFresh(g, s, j); }
      case Remove(s) => UnlinkKeepsLinked(g, s); if chaining { UnlinkKeepsFresh(g, s); }
    }
  }

  /** Every run from the empty graph ends linked, with fresh lookup tables when chaining is on. */
  lemma {:induction false} RunLinked(steps: seq<Step>, chaining: bool)
    ensures Linked(Run(steps, chaining))
    ensures chaining ==> TablesFresh(Run(steps, chaining))
  {
    if steps != [] {
      RunLinked(steps[..|steps|-1], chaining);
      StepKeeps(steps[|steps|-1], Run(steps[..|steps|-1], chaining), chaining);
    }
  }
}
