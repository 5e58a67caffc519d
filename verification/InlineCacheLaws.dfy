/** The two-slot cache over whole runs of lookups: exact while nothing is removed, and precisely
    when a removal makes a later lookup stop the emulator. */
module InlineCacheLaws {
  import opened Types
  import opened CodeSegments

  const EMPTY_SLOTS := FixedDestinationInfo([null, null], [0, 0])

  /** The segments that sit in a slot. */
  ghost function Cached(c: FixedDestinationInfo): set<CodeSegment>
    requires c.Shaped()
  {
    (if c.next[0] == null then {} else {c.next[0]}) + (if c.next[1] == null then {} else {c.next[1]})
  }

  /** Control arrives at segment `s`: it is found in a slot, or stored in one, or neither is possible
      and the emulator stops. */
  ghost function Arrive(c: FixedDestinationInfo, s: CodeSegment): (r: Option<FixedDestinationInfo>)
    requires c.Shaped()
    ensures r.Some? ==> r.value.Shaped()
  {
    if c.HitSlot(s.start()) < 2 then Some(c.Touched(c.HitSlot(s.start())))
    else if c.HasRoom() then Some(c.Added(s))
    else None
  }

  ghost function ArriveAll(visits: seq<CodeSegment>): (r: Option<FixedDestinationInfo>)
    ensures r.Some? ==> r.value.Shaped()
  {
    if visits == [] then Some(EMPTY_SLOTS)
    else match ArriveAll(visits[..|visits|-1])
      case None => None
      case Some(c) => Arrive(c, visits[|visits|-1])
  }

  ghost predicate DistinctStarts(visits: seq<CodeSegment>) {
    forall s, t | s in visits && t in visits && s.start() == t.start() :: s == t
  }

  /** Slots filled from the front with the segments of `visits`, each counted once per visit, the
      busier one first. */
  ghost predicate Exact(c: FixedDestinationInfo, visits: seq<CodeSegment>) {
    && c.Shaped()
    && (c.next[1] != null ==> c.next[0] != null && c.next[0] != c.next[1])
    && (forall s: CodeSegment | s in visits :: s in Cached(c))
    && (forall i | 0 <= i < 2 :: c.next[i] != null ==>
          c.next[i] in visits && c.nextCount[i] == multiset(visits)[c.next[i]])
    && (c.next[1] != null ==> c.nextCount[0] >= c.nextCount[1])
  }

  lemma ArriveKeepsExact(c: FixedDestinationInfo, visits: seq<CodeSegment>, s: CodeSegment)
    requires Exact(c, visits) && DistinctStarts(visits + [s])
    ensures c.HitSlot(s.start()) < 2 <==> s in visits
    ensures Arrive(c, s).Some? ==> Exact(Arrive(c, s).value, visits + [s])
    ensures Arrive(c, s).None? <==> s !in visits && c.next[1] != null
  {
    var all := visits + [s];
    assert s in all && forall x: CodeSegment | x in visits :: x in all;
    assert multiset(all) == multiset(visits)[s := multiset(visits)[s] + 1];
    assert s !in visits ==> multiset(visits)[s] == 0;
  }

  ghost predicate ThreeDestinations(visits: seq<CodeSegment>) {
    exists s, t, u | s in visits && t in visits && u in visits :: s != t && t != u && s != u
  }

  lemma AtMostTwo(c: FixedDestinationInfo, visits: seq<CodeSegment>)
    requires Exact(c, visits)
    ensures !ThreeDestinations(visits)
  {
    forall s, t, u | s in visits && t in visits && u in visits ensures s == t || t == u || s == u {
      assert s in Cached(c) && t in Cached(c) && u in Cached(c);
    }
  }

  /** Without removals a lookup fails iff three different destinations were visited. */
  lemma {:induction false} FailsIffThree(visits: seq<CodeSegment>)
    requires DistinctStarts(visits)
    ensures ArriveAll(visits).None? <==> ThreeDestinations(visits)
    ensures ArriveAll(visits).Some? ==> Exact(ArriveAll(visits).value, visits)
  {
    if visits != [] {
      var before, s := visits[..|visits|-1], visits[|visits|-1];
      assert visits == before + [s];
      assert forall x: CodeSegment | x in before :: x in visits;
      FailsIffThree(before);
      if ArriveAll(before).Some? {
        var c := ArriveAll(before).value;
        ArriveKeepsExact(c, before, s);
        if ArriveAll(visits).None? {
          assert c.next[0] in visits && c.next[1] in visits && s in visits;
          assert ThreeDestinations(visits);
        }
        if ArriveAll(visits).Some? { AtMostTwo(ArriveAll(visits).value, visits); }
      }
    }
  }

  /** Without removals the cache of a block with at most two destinations is exact: no lookup fails,
      an address is found iff a segment starting there was visited, and counts are visit counts. */
  lemma CacheExact(visits: seq<CodeSegment>, a: CodeSegment, b: CodeSegment)
    requires DistinctStarts(visits) && forall s | s in visits :: s == a || s == b
    ensures ArriveAll(visits).Some? && Exact(ArriveAll(visits).value, visits)
    ensures forall address: u64 :: ArriveAll(visits).value.HitSlot(address) < 2 <==>
      exists s | s in visits :: s.start() == address
  {
    FailsIffThree(visits);
    var c := ArriveAll(visits).value;
    forall address: u64 | exists s | s in visits :: s.start() == address ensures c.HitSlot(address) < 2 {
      var s :| s in visits && s.start() == address;
      assert s in Cached(c);
    }
  }

  /** Emptying the slots of `t` takes `t` out of the cache and nothing else; whatever stays keeps its slot and
      its count. */
  lemma WithoutIs(c: FixedDestinationInfo, t: CodeSegment)
    requires c.Shaped()
    ensures Cached(c.Without(t)) == Cached(c) - {t}
    ensures forall i | 0 <= i < 2 && c.next[i] != null && c.next[i] != t ::
      c.Without(t).next[i] == c.next[i] && c.Without(t).nextCount[i] == c.nextCount[i]
  {
    var r := c.Without(t);
    assert r.next[0] == (if c.next[0] == t then null else c.next[0]);
    assert r.next[1] == (if c.next[1] == t then null else c.next[1]);
  }

  /** A segment that is not found goes to the slot a removal emptied, first to the front one; the other slot
      keeps what it holds. */
  lemma ArriveFills(c: FixedDestinationInfo, s: CodeSegment, i: nat)
    requires c.Shaped() && i < 2 && c.next[i] == null && (i == 1 ==> c.next[0] != null)
    requires c.HitSlot(s.start()) == 2
    ensures Arrive(c, s).Some?
    ensures var r := Arrive(c, s).value;
      && r.next[i] == s && r.nextCount[i] == 1 && r.next[1-i] == c.next[1-i] && r.nextCount[1-i] == c.nextCount[1-i]
      && Cached(r) == Cached(c) + {s}
  {
    assert Arrive(c, s).value.next[i] == s;
  }

  /** A lookup stops the emulator iff both slots are taken by segments that start elsewhere. */
  lemma ArriveFailsIff(c: FixedDestinationInfo, s: CodeSegment)
    requires c.Shaped()
    ensures Arrive(c, s).None? <==>
      c.next[0] != null && c.next[1] != null && c.next[0].start() != s.start() && c.next[1].start() != s.start()
  {}

  /** With two destinations `a` and `b`, control reaching `a` fails iff `b` sits in both slots. */
  lemma TwoDestinationsFailIff(c: FixedDestinationInfo, a: CodeSegment, b: CodeSegment)
    requires c.Shaped() && a.start() != b.start() && Cached(c) <= {a, b}
    ensures Arrive(c, a).None? <==> c.next == [b, b]
  {
    assert c.next == [c.next[0], c.next[1]];
    if c.next[0] != null { assert c.next[0] in Cached(c); }
    if c.next[1] != null { assert c.next[1] in Cached(c); }
  }

  /** A removal gets there: `a` and `b` are cached, `a` is removed, `b` is reached again - the search
      stops at the emptied first slot, so `b` is stored a second time - and coming back to the address
      of `a` finds no room. */
  lemma RemovalBreaksCache(a: CodeSegment, b: CodeSegment, again: CodeSegment)
    requires a.start() != b.start() && again.start() == a.start()
    ensures var c := ArriveAll([a, b]);
      && c.Some?
      && var afterRemoval := c.value.Without(a);
      && afterRemoval.HitSlot(b.start()) == 2 && b in Cached(afterRemoval)
      && Arrive(afterRemoval, b).Some?
      && Arrive(Arrive(afterRemoval, b).value, again).None?
  {
    assert [a, b][..1] == [a] && [a][..0] == [];
    assert ArriveAll([a]) == Arrive(EMPTY_SLOTS, a);
  }

  /** Slots filled from the front with segments that start at different ones of the block's destinations. */
  ghost predicate Settled(c: FixedDestinationInfo, block: BasicBlock) {
    && c.Shaped()
    && (c.next[0] != null ==> block.Leads(c.next[0].start()))
    && (c.next[1] != null ==>
          c.next[0] != null && block.Leads(c.next[1].start()) && c.next[0].start() != c.next[1].start())
  }

  /** Control arriving where the block leads never fails, and leaves the slots so. */
  lemma SettledArrives(c: FixedDestinationInfo, block: BasicBlock, s: CodeSegment)
    requires Settled(c, block) && block.Fixed() && block.Leads(s.start())
    ensures Arrive(c, s).Some? && Settled(Arrive(c, s).value, block)
  {}

  /** The slots of every block with fixed destinations are so. */
  ghost predicate Calm(g: Graph) {
    forall s {:trigger CalmAt(g, s)} | s in g :: CalmAt(g, s)
  }

  ghost predicate CalmAt(g: Graph, s: CodeSegment)
    requires s in g
  {
    s.Fixed() ==> Settled(g[s].fixedInfo, s.block)
  }

  /** Both slots of `s` hold segments that start elsewhere, so that control reaching `rip` finds no room. */
  ghost predicate Stuck(g: Graph, s: CodeSegment, rip: u64) {
    && s in g && s.Fixed() && g[s].fixedInfo.Shaped()
    && g[s].fixedInfo.next[0] != null && g[s].fixedInfo.next[0].start() != rip
    && g[s].fixedInfo.next[1] != null && g[s].fixedInfo.next[1].start() != rip
  }

  lemma CalmIsNotStuck(g: Graph, s: CodeSegment, rip: u64)
    requires Calm(g) && s in g && s.block.Leads(rip)
    ensures !Stuck(g, s, rip)
  {
    assert CalmAt(g, s);
  }

  /** Segments that differ in nothing but slots that stay settled. */
  lemma CalmStays(g: Graph, s: CodeSegment, h: Graph)
    requires Calm(g) && s in g && h.Keys == g.Keys && CalmAt(h, s)
    requires forall x | x in g && x != s :: h[x].fixedInfo == g[x].fixedInfo
    ensures Calm(h)
  {
    forall x | x in h ensures CalmAt(h, x) { assert CalmAt(g, x); }
  }
}
