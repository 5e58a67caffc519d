/** Locked read-modify-write on shared memory, in multiprocessing builds (emulator/include/x64/spinlock.h,
    emulator/include/x64/mmu.h): a step-level protocol, in which any thread may take the next step. */
module LockedMemory {
  import opened Types

  /** 256^width: how many values a cell of this width can hold. */
  function Range(width: nat): (n: nat)
    ensures n > 0
  {
    if width == 0 then 1 else 256 * Range(width - 1)
  }

  /** The value of bytes, least significant first. */
  function Value(bytes: seq<byte>): (v: nat)
    ensures v < Range(|bytes|)
  {
    if bytes == [] then 0 else bytes[0] + 256 * Value(bytes[1..])
  }

  function Bytes(v: nat, width: nat): (bytes: seq<byte>)
    ensures |bytes| == width
  {
    if width == 0 then [] else [v % 256] + Bytes(v / 256, width - 1)
  }

  lemma {:induction false} ValueOfBytes(v: nat, width: nat)
    requires v < Range(width)
    ensures Value(Bytes(v, width)) == v
  {
    if width > 0 {
      ValueOfBytes(v / 256, width - 1);
      assert Bytes(v, width)[1..] == Bytes(v / 256, width - 1);
    }
  }

  /** The byte at `i` is worth 256^i. */
  lemma {:induction false} LittleEndian(bytes: seq<byte>, i: nat)
    requires i < |bytes|
    ensures Value(bytes) / Range(i) % 256 == bytes[i]
  {
    if i > 0 {
      LittleEndian(bytes[1..], i - 1);
      DropByte(bytes[0], Value(bytes[1..]), Range(i - 1));
    }
  }

  lemma DropByte(b: byte, v: nat, d: nat)
    requires d > 0
    ensures (b + 256 * v) / (256 * d) == v / d
  {
    var q, r := v / d, v % d;
    assert v == q * d + r;
    assert b + 256 * v == q * (256 * d) + (b + 256 * r);
    QuotientIs(b + 256 * v, 256 * d, q, b + 256 * r);
  }

  /** The widths of locked accesses, in bytes. */
  predicate Sized(width: nat) { width == 1 || width == 2 || width == 4 || width == 8 }

  lemma RangeIs()
    ensures Range(1) == 0x100 && Range(2) == 0x1_0000 && Range(4) == 0x1_0000_0000 && Range(8) == TWO_TO_THE_64
  {
    assert Range(3) == 0x100_0000;
    assert Range(6) == 0x1_0000_0000_0000;
  }

  /** What a cell of this width makes of `x`. */
  function Wrap(x: nat, width: nat): (r: nat)
    requires Sized(width)
    ensures r < Range(width)
  {
    RangeIs();
    if width == 1 then x % 0x100
    else if width == 2 then x % 0x1_0000
    else if width == 4 then x % 0x1_0000_0000
    else x % TWO_TO_THE_64
  }

  lemma WrapIsRemainder(x: nat, width: nat)
    requires Sized(width)
    ensures Wrap(x, width) == x % Range(width)
  {
    RangeIs();
  }

  lemma ValueFits(bytes: seq<byte>)
    requires Sized(|bytes|)
    ensures Wrap(Value(bytes), |bytes|) == Value(bytes)
  {
    RangeIs();
  }

  lemma WrapAdd(x: nat, y: nat, z: nat, w: nat)
    requires Sized(w)
    ensures Wrap(Wrap(x + y, w) + z, w) == Wrap(x + (y + z), w)
  {
    WrapIsRemainder(x + y, w);
    WrapIsRemainder(Wrap(x + y, w) + z, w);
    WrapIsRemainder(x + (y + z), w);
    AddMod(x + y, z, Range(w));
    assert x + y + z == x + (y + z);
  }

  /** Adding the complement subtracts. */
  lemma ComplementSubtracts(x: nat, y: nat, w: nat)
    requires Sized(w) && x < Range(w) && y <= Range(w)
    ensures Wrap(x + (Range(w) - y), w) == if y <= x then x - y else x + Range(w) - y
  {
    var n := Range(w);
    WrapIsRemainder(x + (n - y), w);
    if y <= x { QuotientIs(x + (n - y), n, 1, x - y); } else { QuotientIs(x + (n - y), n, 0, x + n - y); }
  }

  /** What an instruction does to a cell. LOCK INC adds one, and LOCK DEC and LOCK SUB add the complement; Store is a
      plain write, which takes the lock too; a Load takes none. */
  datatype Operation =
    Add(src: nat) | Xadd(src: nat) | Cmpxchg(expected: nat, src: nat) | Xchg(src: nat) | Store(src: nat) | Load
  {
    /** The new value of a cell of `width` bytes that holds `held`. */
    function Modify(held: nat, width: nat): (m: nat)
      requires Fits(width)
      ensures held < Range(width) ==> m < Range(width)
    {
      match this
      case Add(src) => Wrap(held + src, width)
      case Xadd(src) => Wrap(held + src, width)
      case Cmpxchg(expected, src) => if held == expected then src else held
      case Xchg(src) => src
      case Store(src) => src
      case Load => held
    }

    predicate Fits(width: nat) {
      && Sized(width)
      && (Cmpxchg? || Xchg? || Store? ==> src < Range(width))
    }
  }

  /** An access to the `width` bytes from `offset` on in a region. */
  datatype Access = Access(op: Operation, region: nat, offset: nat, width: nat)

  /** Where a thread is in its current access. */
  datatype Phase =
    | Between
    | Loading(got: seq<byte>)
    | Reading(got: seq<byte>)
    | Exchanging
    | Writing(value: nat, done: nat)
  {
    /** Between acquire and release. */
    predicate Critical() { Reading? || Exchanging? || Writing? }
  }

  /** What the read of an access gave: `index` tells which access of the thread it was. */
  datatype Seen = Seen(index: nat, value: nat)

  datatype Thread = Thread(next: nat, phase: Phase, seen: seq<Seen>)

  /** An access of a thread that acquired its region's lock. */
  datatype Entry = Entry(thread: nat, index: nat, access: Access)

  /** A region; `log` records who acquired its lock, in order. */
  datatype Region = Region(locked: bool, bytes: seq<byte>, log: seq<Entry>)

  datatype State = State(regions: seq<Region>, threads: seq<Thread>)

  /** What each thread is going to do. */
  type Programs = seq<seq<Access>>

  /** `bytes` with `b` stored from `offset` on. */
  function Patch(bytes: seq<byte>, offset: nat, b: seq<byte>): (r: seq<byte>)
    requires offset + |b| <= |bytes|
    ensures |r| == |bytes|
  {
    bytes[..offset] + b + bytes[offset+|b|..]
  }

  predicate Inside(a: Access, size: nat) { a.offset + a.width <= size && a.op.Fits(a.width) }

  function Cell(bytes: seq<byte>, a: Access): nat
    requires Inside(a, |bytes|)
  {
    Value(bytes[a.offset..a.offset + a.width])
  }

  /** A region's bytes after an access that nothing disturbs. */
  function Applied(bytes: seq<byte>, a: Access): (r: seq<byte>)
    requires Inside(a, |bytes|)
    ensures |r| == |bytes|
  {
    Patch(bytes, a.offset, Bytes(a.op.Modify(Cell(bytes, a), a.width), a.width))
  }

  ghost predicate AllInside(log: seq<Entry>, size: nat) {
    forall k | 0 <= k < |log| :: Inside(log[k].access, size)
  }

  /** A region's bytes after the accesses of `log`, one after the other. */
  ghost function Fold(init: seq<byte>, log: seq<Entry>): (r: seq<byte>)
    requires AllInside(log, |init|)
    ensures |r| == |init|
  {
    if log == [] then init else Applied(Fold(init, log[..|log|-1]), log[|log|-1].access)
  }

  /** The next step of thread `t`: one attempt to lock, one byte read or written, or one release. */
  function Step(ps: Programs, s: State, t: nat): State
    requires Shaped(ps, s) && t < |ps|
  {
    var th := s.threads[t];
    if th.next == |ps[t]| then s
    else
      var a := ps[t][th.next];
      var r := s.regions[a.region];
      match th.phase
      case Between =>
        if a.op.Load? then With(s, t, th.(phase := Loading([])), a.region, r)
        else if r.locked then s
        else With(s, t, th.(phase := Started(a)), a.region, r.(locked := true, log := r.log + [Entry(t, th.next, a)]))
      case Loading(got) =>
        if |got| < a.width then With(s, t, th.(phase := Loading(got + [r.bytes[a.offset + |got|]])), a.region, r)
        else With(s, t, Thread(th.next + 1, Between, th.seen), a.region, r)
      case Reading(got) =>
        if |got| < a.width then With(s, t, th.(phase := Reading(got + [r.bytes[a.offset + |got|]])), a.region, r)
        else
          var phase, seen := Writing(a.op.Modify(Value(got), a.width), 0), th.seen + [Seen(th.next, Value(got))];
          With(s, t, Thread(th.next, phase, seen), a.region, r)
      case Exchanging =>
        With(s, t, Thread(th.next, Writing(a.op.src, a.width), th.seen + [Seen(th.next, Cell(r.bytes, a))]),
             a.region, r.(bytes := Applied(r.bytes, a)))
      case Writing(value, done) =>
        if done < a.width then
          With(s, t, th.(phase := Writing(value, done + 1)), a.region,
               r.(bytes := r.bytes[a.offset + done := Bytes(value, a.width)[done]]))
        else With(s, t, Thread(th.next + 1, Between, th.seen), a.region, r.(locked := false))
  }

  /** A plain write needs no read, and an exchange is one step. */
  function Started(a: Access): Phase {
    match a.op
    case Store(src) => Writing(src, 0)
    case Xchg(_) => Exchanging
    case _ => Reading([])
  }

  function With(s: State, t: nat, th: Thread, r: nat, region: Region): State
    requires t < |s.threads| && r < |s.regions|
  {
    State(s.regions[r := region], s.threads[t := th])
  }

  /** What a step needs to make sense. */
  ghost predicate Shaped(ps: Programs, s: State) {
    && |s.threads| == |ps|
    && forall t {:trigger s.threads[t]} | 0 <= t < |ps| :: ThreadShaped(ps, s, t)
  }

  ghost predicate ThreadShaped(ps: Programs, s: State, t: nat)
    requires t < |ps| && t < |s.threads|
  {
    var th := s.threads[t];
    && th.next <= |ps[t]|
    && (th.next < |ps[t]| ==>
        var a := ps[t][th.next];
        && a.region < |s.regions| && Inside(a, |s.regions[a.region].bytes|)
        && (th.phase.Loading? || th.phase.Reading? ==> |th.phase.got| <= a.width)
        && (th.phase.Loading? ==> a.op.Load?) && (th.phase.Exchanging? ==> a.op.Xchg?)
        && (th.phase.Writing? ==> th.phase.done <= a.width)
        && (th.phase.Critical() ==> !a.op.Load?))
    && (th.next == |ps[t]| ==> th.phase.Between?)
  }

  /** Thread `t` is between acquiring and releasing the lock of region `r`. */
  ghost predicate Critical(ps: Programs, s: State, t: nat, r: nat) {
    && t < |ps| && t < |s.threads| && s.threads[t].phase.Critical()
    && s.threads[t].next < |ps[t]| && ps[t][s.threads[t].next].region == r
  }

  /** Thread `t` has acquired the lock for its access `i`. */
  ghost predicate Begun(ps: Programs, s: State, t: nat, i: nat)
    requires t < |s.threads|
  {
    i < s.threads[t].next || (i == s.threads[t].next && s.threads[t].phase.Critical())
  }

  ghost predicate SoundStart(ps: Programs, init: seq<seq<byte>>) {
    forall t, i {:trigger ps[t][i]} | 0 <= t < |ps| && 0 <= i < |ps[t]| ::
      ps[t][i].region < |init| && Inside(ps[t][i], |init[ps[t][i].region]|)
  }

  function Start(ps: Programs, init: seq<seq<byte>>): State {
    State(seq(|init|, r requires 0 <= r < |init| => Region(false, init[r], [])),
          seq(|ps|, t => Thread(0, Between, [])))
  }

  ghost predicate EntryOk(ps: Programs, s: State, r: nat, e: Entry) {
    && e.thread < |ps| && e.thread < |s.threads| && e.index < |ps[e.thread]|
    && e.access == ps[e.thread][e.index] && e.access.region == r && !e.access.op.Load?
    && Begun(ps, s, e.thread, e.index)
  }

  /** The log of region `r` lists accesses of that region that have begun, in program order for each
      thread; the region's lock is held by the thread that acquired it last, and while it is free the
      region's bytes are what the log amounts to. */
  ghost predicate RegionOk(ps: Programs, s: State, init: seq<seq<byte>>, r: nat)
    requires r < |s.regions| && r < |init|
  {
    var region := s.regions[r];
    && |region.bytes| == |init[r]| && AllInside(region.log, |init[r]|)
    && (forall k | 0 <= k < |region.log| :: EntryOk(ps, s, r, region.log[k]))
    && (forall k, l | 0 <= k < l < |region.log| && region.log[k].thread == region.log[l].thread ::
          region.log[k].index < region.log[l].index)
    && (if region.locked then region.log != [] && Critical(ps, s, region.log[|region.log|-1].thread, r)
        else region.bytes == Fold(init[r], region.log))
  }

  /** How far access `a` of the lock's holder has come, from the bytes `before` it. */
  ghost predicate Halfway(before: seq<byte>, bytes: seq<byte>, a: Access, phase: Phase) {
    && Inside(a, |before|)
    && match phase
       case Reading(got) => bytes == before && |got| <= a.width && got == before[a.offset..a.offset + |got|]
         && !a.op.Store? && !a.op.Xchg?
       case Exchanging => bytes == before
       case Writing(value, done) =>
         && done <= a.width && value == a.op.Modify(Cell(before, a), a.width)
         && bytes == Patch(before, a.offset, Bytes(value, a.width)[..done])
       case _ => false
  }

  /** What thread `t` saw as its access `i` is the cell as it was at that access's turn in the log. */
  ghost predicate SeenOk(ps: Programs, s: State, init: seq<seq<byte>>, t: nat, seen: Seen)
    requires t < |ps|
  {
    && seen.index < |ps[t]|
    && var a := ps[t][seen.index];
       a.region < |s.regions| && a.region < |init| && exists k: nat ::
         SawAt(s.regions[a.region].log, init[a.region], t, seen, k)
  }

  /** The k-th entry of `log` is access `seen.index` of thread `t`, and it saw what the entries before it left. */
  ghost predicate SawAt(log: seq<Entry>, init: seq<byte>, t: nat, seen: Seen, k: nat) {
    && k < |log| && AllInside(log, |init|) && log[k].thread == t && log[k].index == seen.index
    && seen.value == Cell(Fold(init, log[..k]), log[k].access)
  }

  /** Between acquire and release the thread's access is the last in its region's log, and the region is
      as far as that access has come from the fold of all before it. */
  ghost predicate Holding(ps: Programs, s: State, init: seq<seq<byte>>, t: nat)
    requires t < |ps| && t < |s.threads| && |s.regions| == |init| && ThreadShaped(ps, s, t)
  {
    s.threads[t].phase.Critical() ==>
      var a := ps[t][s.threads[t].next];
      var region := s.regions[a.region];
      && region.locked && region.log != [] && region.log[|region.log|-1] == Entry(t, s.threads[t].next, a)
      && AllInside(region.log, |init[a.region]|)
      && Halfway(Fold(init[a.region], region.log[..|region.log|-1]), region.bytes, a, s.threads[t].phase)
  }

  ghost predicate ThreadOk(ps: Programs, s: State, init: seq<seq<byte>>, t: nat)
    requires t < |ps| && t < |s.threads| && |s.regions| == |init|
  {
    && ThreadShaped(ps, s, t) && Holding(ps, s, init, t)
    && (forall j | 0 <= j < |s.threads[t].seen| :: SeenOk(ps, s, init, t, s.threads[t].seen[j]))
    && (forall i {:trigger Logged(ps, s, t, i)} | 0 <= i < |ps[t]| && Begun(ps, s, t, i) :: Logged(ps, s, t, i))
    && (forall i {:trigger HasSeen(ps[t], s.threads[t], i)} | 0 <= i < |ps[t]| :: HasSeen(ps[t], s.threads[t], i))
  }

  /** A read-modify-write that is past its read has seen something. */
  ghost predicate HasSeen(program: seq<Access>, th: Thread, i: nat)
    requires i < |program|
  {
    (i < th.next || (i == th.next && th.phase.Writing?)) && !program[i].op.Load? && !program[i].op.Store? ==>
      exists j :: 0 <= j < |th.seen| && th.seen[j].index == i
  }

  /** Access `i` of thread `t`, unless it takes no lock, is in its region's log. */
  ghost predicate Logged(ps: Programs, s: State, t: nat, i: nat)
    requires t < |ps| && i < |ps[t]|
  {
    var a := ps[t][i];
    !a.op.Load? ==> a.region < |s.regions| && Entry(t, i, a) in s.regions[a.region].log
  }

  ghost predicate Inv(ps: Programs, init: seq<seq<byte>>, s: State) {
    && SoundStart(ps, init) && |s.threads| == |ps| && |s.regions| == |init|
    && (forall t {:trigger ThreadOk(ps, s, init, t)} | 0 <= t < |ps| :: ThreadOk(ps, s, init, t))
    && (forall r {:trigger RegionOk(ps, s, init, r)} | 0 <= r < |init| :: RegionOk(ps, s, init, r))
  }

  lemma InvShaped(ps: Programs, init: seq<seq<byte>>, s: State)
    requires Inv(ps, init, s)
    ensures Shaped(ps, s)
  {
    forall t | 0 <= t < |ps| ensures ThreadShaped(ps, s, t) { assert ThreadOk(ps, s, init, t); }
  }

  /** At most one thread is between acquire and release on a region, and the lock says whether there is one. */
  lemma MutualExclusion(ps: Programs, init: seq<seq<byte>>, s: State, r: nat)
    requires Inv(ps, init, s) && r < |init|
    ensures forall t, u | Critical(ps, s, t, r) && Critical(ps, s, u, r) :: t == u
    ensures s.regions[r].locked <==> exists t :: Critical(ps, s, t, r)
  {
    assert RegionOk(ps, s, init, r);
    forall t | Critical(ps, s, t, r) ensures s.regions[r].locked && s.regions[r].log[|s.regions[r].log|-1].thread == t {
      assert ThreadOk(ps, s, init, t);
    }
  }

  /** `s2` is `s` after a step of thread `t` in region `r`, as far as others can tell. */
  ghost predicate Aside(ps: Programs, s: State, s2: State, t: nat, r: nat) {
    && t < |s.threads| && r < |s.regions| && |s2.threads| == |s.threads| && |s2.regions| == |s.regions|
    && (forall u | 0 <= u < |s.threads| && u != t :: s2.threads[u] == s.threads[u])
    && (forall q | 0 <= q < |s.regions| && q != r :: s2.regions[q] == s.regions[q])
    && |s2.regions[r].bytes| == |s.regions[r].bytes| && s.regions[r].log <= s2.regions[r].log
    && (s2.regions[r] == s.regions[r] || forall u | u != t :: !Critical(ps, s, u, r))
    && (forall i | Begun(ps, s, t, i) :: Begun(ps, s2, t, i))
    && (forall q | q != r :: !Critical(ps, s, t, q))
  }

  lemma SeenStays(ps: Programs, init: seq<seq<byte>>, s: State, s2: State, t: nat, r: nat, u: nat, seen: Seen)
    requires Aside(ps, s, s2, t, r) && u < |ps| && |init| == |s.regions|
    requires AllInside(s2.regions[r].log, |init[r]|) && SeenOk(ps, s, init, u, seen)
    ensures SeenOk(ps, s2, init, u, seen)
  {
    var q := ps[u][seen.index].region;
    var k: nat :| SawAt(s.regions[q].log, init[q], u, seen, k);
    assert s2.regions[q].log[..k] == s.regions[q].log[..k];
    assert SawAt(s2.regions[q].log, init[q], u, seen, k);
  }

  lemma OthersThread(ps: Programs, init: seq<seq<byte>>, s: State, s2: State, t: nat, r: nat, u: nat)
    requires Inv(ps, init, s) && Aside(ps, s, s2, t, r) && u < |ps| && u != t
    requires AllInside(s2.regions[r].log, |init[r]|)
    ensures ThreadOk(ps, s2, init, u)
  {
    assert ThreadOk(ps, s, init, u);
    var th := s.threads[u];
    if th.phase.Critical() { assert Critical(ps, s, u, ps[u][th.next].region); }
    forall j | 0 <= j < |th.seen| ensures SeenOk(ps, s2, init, u, th.seen[j]) {
      SeenStays(ps, init, s, s2, t, r, u, th.seen[j]);
    }
    forall i | 0 <= i < |ps[u]| && Begun(ps, s2, u, i) ensures Logged(ps, s2, u, i) {
      assert Begun(ps, s, u, i) && Logged(ps, s, u, i);
    }
    forall i | 0 <= i < |ps[u]| ensures HasSeen(ps[u], s2.threads[u], i) { assert HasSeen(ps[u], th, i); }
  }

  lemma EntryStays(ps: Programs, s: State, s2: State, t: nat, r: nat, q: nat, e: Entry)
    requires Aside(ps, s, s2, t, r) && EntryOk(ps, s, q, e)
    ensures EntryOk(ps, s2, q, e)
  {}

  lemma OthersRegion(ps: Programs, init: seq<seq<byte>>, s: State, s2: State, t: nat, r: nat, q: nat)
    requires Inv(ps, init, s) && Aside(ps, s, s2, t, r) && q < |init| && q != r
    ensures RegionOk(ps, s2, init, q)
  {
    assert RegionOk(ps, s, init, q);
    var region := s.regions[q];
    forall k | 0 <= k < |region.log| ensures EntryOk(ps, s2, q, region.log[k]) {
      EntryStays(ps, s, s2, t, r, q, region.log[k]);
    }
    if region.locked { assert Critical(ps, s2, region.log[|region.log|-1].thread, q); }
  }

  /** A step keeps the invariant if it does so for its own thread and region. */
  lemma StepAside(ps: Programs, init: seq<seq<byte>>, s: State, s2: State, t: nat, r: nat)
    requires Inv(ps, init, s) && Aside(ps, s, s2, t, r)
    requires t < |ps| && ThreadOk(ps, s2, init, t) && RegionOk(ps, s2, init, r)
    ensures Inv(ps, init, s2)
  {
    forall u | 0 <= u < |ps| ensures ThreadOk(ps, s2, init, u) { if u != t { OthersThread(ps, init, s, s2, t, r, u); } }
    forall q | 0 <= q < |init| ensures RegionOk(ps, s2, init, q) {
      if q != r { OthersRegion(ps, init, s, s2, t, r, q); }
    }
  }

  /** Of the stepping thread's own record, all but what its phase says stays. */
  lemma OwnThread(ps: Programs, init: seq<seq<byte>>, s: State, s2: State, t: nat, r: nat)
    requires Inv(ps, init, s) && Aside(ps, s, s2, t, r) && t < |ps| && AllInside(s2.regions[r].log, |init[r]|)
    requires var th, th2 := s.threads[t], s2.threads[t];
      && ThreadShaped(ps, s2, t)
      && (th2.seen == th.seen
          || (th2.seen != [] && th2.seen[..|th2.seen|-1] == th.seen
              && SeenOk(ps, s2, init, t, th2.seen[|th2.seen|-1])))
      && (forall i | 0 <= i < |ps[t]| && Begun(ps, s2, t, i) && !Begun(ps, s, t, i) :: Logged(ps, s2, t, i))
      && (forall i | 0 <= i < |ps[t]| :: HasSeen(ps[t], th, i) ==> HasSeen(ps[t], th2, i))
      && Holding(ps, s2, init, t)
    ensures ThreadOk(ps, s2, init, t)
  {
    assert ThreadOk(ps, s, init, t);
    var th, th2 := s.threads[t], s2.threads[t];
    forall j | 0 <= j < |th2.seen| ensures SeenOk(ps, s2, init, t, th2.seen[j]) {
      if j < |th.seen| {
        assert th2.seen[j] == th.seen[j];
        SeenStays(ps, init, s, s2, t, r, t, th.seen[j]);
      }
    }
    forall i | 0 <= i < |ps[t]| && Begun(ps, s2, t, i) ensures Logged(ps, s2, t, i) {
      if Begun(ps, s, t, i) { assert Logged(ps, s, t, i); }
    }
    forall i | 0 <= i < |ps[t]| ensures HasSeen(ps[t], th2, i) { assert HasSeen(ps[t], th, i); }
  }

  lemma StartInv(ps: Programs, init: seq<seq<byte>>)
    requires SoundStart(ps, init)
    ensures Inv(ps, init, Start(ps, init))
  {
    var s := Start(ps, init);
    forall t | 0 <= t < |ps| ensures ThreadOk(ps, s, init, t) {
      assert s.threads[t] == Thread(0, Between, []);
      if ps[t] != [] { assert ps[t][0].region < |init|; }
    }
    forall r | 0 <= r < |init| ensures RegionOk(ps, s, init, r) { assert s.regions[r] == Region(false, init[r], []); }
  }

  lemma AccessInside(ps: Programs, init: seq<seq<byte>>, s: State, t: nat, i: nat)
    requires Inv(ps, init, s) && t < |ps| && i < |ps[t]|
    ensures ps[t][i].region < |init| && Inside(ps[t][i], |s.regions[ps[t][i].region].bytes|)
    ensures |s.regions[ps[t][i].region].bytes| == |init[ps[t][i].region]|
  {
    assert RegionOk(ps, s, init, ps[t][i].region);
  }

  /** A region whose log and lock stay is all right if its bytes are. */
  lemma SameLog(ps: Programs, init: seq<seq<byte>>, s: State, s2: State, t: nat, r: nat)
    requires Inv(ps, init, s) && r < |init| && Aside(ps, s, s2, t, r)
    requires s2.regions[r].log == s.regions[r].log && s2.regions[r].locked == s.regions[r].locked
    requires !s.regions[r].locked ==> s2.regions[r] == s.regions[r]
    requires s.regions[r].locked ==> forall u | Critical(ps, s, u, r) :: Critical(ps, s2, u, r)
    ensures RegionOk(ps, s2, init, r)
  {
    assert RegionOk(ps, s, init, r);
    forall k | 0 <= k < |s.regions[r].log| ensures EntryOk(ps, s2, r, s.regions[r].log[k]) {
      EntryStays(ps, s, s2, t, r, r, s.regions[r].log[k]);
    }
  }

  /** Loads take no lock and change nothing but their thread. */
  lemma LoadKeeps(ps: Programs, init: seq<seq<byte>>, s: State, t: nat)
    requires Inv(ps, init, s) && t < |ps| && s.threads[t].next < |ps[t]|
    requires ThreadShaped(ps, s, t) && Shaped(ps, s)
    requires s.threads[t].phase.Loading? || (s.threads[t].phase.Between? && ps[t][s.threads[t].next].op.Load?)
    ensures Inv(ps, init, Step(ps, s, t))
  {
    var s2, th := Step(ps, s, t), s.threads[t];
    var r := ps[t][th.next].region;
    AccessInside(ps, init, s, t, th.next);
    if th.next + 1 < |ps[t]| { AccessInside(ps, init, s, t, th.next + 1); }
    assert s2.regions == s.regions;
    assert Aside(ps, s, s2, t, r);
    assert RegionOk(ps, s, init, r);
    OwnThread(ps, init, s, s2, t, r);
    SameLog(ps, init, s, s2, t, r);
    StepAside(ps, init, s, s2, t, r);
  }

  lemma NobodyElse(ps: Programs, init: seq<seq<byte>>, s: State, t: nat, r: nat)
    requires Inv(ps, init, s) && r < |init| && (Critical(ps, s, t, r) || !s.regions[r].locked)
    ensures forall u | u != t :: !Critical(ps, s, u, r)
  {
    MutualExclusion(ps, init, s, r);
  }

  lemma AcquireKeeps(ps: Programs, init: seq<seq<byte>>, s: State, t: nat)
    requires Inv(ps, init, s) && t < |ps| && s.threads[t].next < |ps[t]| && Shaped(ps, s) && ThreadShaped(ps, s, t)
    requires s.threads[t].phase.Between? && !ps[t][s.threads[t].next].op.Load?
    requires !s.regions[ps[t][s.threads[t].next].region].locked
    ensures Inv(ps, init, Step(ps, s, t))
  {
    var s2, r := Step(ps, s, t), ps[t][s.threads[t].next].region;
    AccessInside(ps, init, s, t, s.threads[t].next);
    NobodyElse(ps, init, s, t, r);
    assert Aside(ps, s, s2, t, r);
    AcquireRegion(ps, init, s, s2, t, r);
    AcquireThread(ps, init, s, s2, t, r);
    StepAside(ps, init, s, s2, t, r);
  }

  ghost predicate Acquires(ps: Programs, s: State, s2: State, t: nat, r: nat) {
    && t < |ps| && t < |s.threads| && t < |s2.threads| && s.threads[t].next < |ps[t]|
    && var a := ps[t][s.threads[t].next];
       && a.region == r < |s.regions| && r < |s2.regions| && s.threads[t].phase.Between? && !a.op.Load?
       && !s.regions[r].locked && s2.threads[t] == s.threads[t].(phase := Started(a))
       && s2.regions[r] == Region(true, s.regions[r].bytes, s.regions[r].log + [Entry(t, s.threads[t].next, a)])
  }

  lemma AcquireRegion(ps: Programs, init: seq<seq<byte>>, s: State, s2: State, t: nat, r: nat)
    requires Inv(ps, init, s) && Aside(ps, s, s2, t, r) && Acquires(ps, s, s2, t, r)
    requires Inside(ps[t][s.threads[t].next], |init[r]|)
    ensures RegionOk(ps, s2, init, r)
  {
    assert RegionOk(ps, s, init, r);
    var log, more := s.regions[r].log, s2.regions[r].log;
    forall k | 0 <= k < |more| ensures EntryOk(ps, s2, r, more[k]) {
      if k < |log| { EntryStays(ps, s, s2, t, r, r, log[k]); }
    }
    forall k, l | 0 <= k < l < |more| && more[k].thread == more[l].thread ensures more[k].index < more[l].index {
      if l == |log| { assert EntryOk(ps, s, r, log[k]); }
    }
    assert Critical(ps, s2, t, r);
  }

  lemma AcquireThread(ps: Programs, init: seq<seq<byte>>, s: State, s2: State, t: nat, r: nat)
    requires Inv(ps, init, s) && Aside(ps, s, s2, t, r) && Acquires(ps, s, s2, t, r)
    requires Inside(ps[t][s.threads[t].next], |init[r]|) && RegionOk(ps, s2, init, r)
    ensures ThreadOk(ps, s2, init, t)
  {
    assert ThreadOk(ps, s, init, t);
    AcquireHolds(ps, init, s, s2, t, r);
    OwnThread(ps, init, s, s2, t, r);
  }

  lemma AcquireHolds(ps: Programs, init: seq<seq<byte>>, s: State, s2: State, t: nat, r: nat)
    requires Inv(ps, init, s) && Aside(ps, s, s2, t, r) && Acquires(ps, s, s2, t, r)
    requires Inside(ps[t][s.threads[t].next], |init[r]|) && RegionOk(ps, s2, init, r) && ThreadShaped(ps, s2, t)
    ensures Holding(ps, s2, init, t)
  {
    assert RegionOk(ps, s, init, r);
    var log := s2.regions[r].log;
    assert log[..|log|-1] == s.regions[r].log;
  }

  /** A step of the lock's holder that keeps the lock and the log. */
  ghost predicate Holds(ps: Programs, init: seq<seq<byte>>, s: State, s2: State, t: nat, r: nat) {
    && Critical(ps, s, t, r) && r < |s.regions| && r < |init|
    && |s2.threads| == |s.threads| && |s2.regions| == |s.regions|
    && s2 == With(s, t, s2.threads[t], r, s2.regions[r])
    && s2.threads[t].next == s.threads[t].next && s2.threads[t].phase.Critical()
    && s2.regions[r] == s.regions[r].(bytes := s2.regions[r].bytes)
    && |s2.regions[r].bytes| == |s.regions[r].bytes|
  }

  lemma HolderKeeps(ps: Programs, init: seq<seq<byte>>, s: State, s2: State, t: nat, r: nat)
    requires Inv(ps, init, s) && Holds(ps, init, s, s2, t, r) && OwnSeen(ps, init, s, s2, t)
    requires GoesOn(ps, init, s, s2, t, r)
    ensures Inv(ps, init, s2)
  {
    HolderAside(ps, init, s, s2, t, r);
    SameLogHeld(ps, init, s, s2, t, r);
    HolderThread(ps, init, s, s2, t, r);
    StepAside(ps, init, s, s2, t, r);
  }

  lemma HolderAside(ps: Programs, init: seq<seq<byte>>, s: State, s2: State, t: nat, r: nat)
    requires Inv(ps, init, s) && Holds(ps, init, s, s2, t, r)
    ensures Aside(ps, s, s2, t, r)
  {
    NobodyElse(ps, init, s, t, r);
  }

  ghost predicate GoesOn(ps: Programs, init: seq<seq<byte>>, s: State, s2: State, t: nat, r: nat)
    requires Holds(ps, init, s, s2, t, r)
  {
    var a := ps[t][s.threads[t].next];
    var log := s.regions[r].log;
    && log != [] && AllInside(log, |init[r]|) && !a.op.Load? && (s2.threads[t].phase.Exchanging? ==> a.op.Xchg?)
    && Halfway(Fold(init[r], log[..|log|-1]), s2.regions[r].bytes, a, s2.threads[t].phase)
  }

  lemma SameLogHeld(ps: Programs, init: seq<seq<byte>>, s: State, s2: State, t: nat, r: nat)
    requires Inv(ps, init, s) && Holds(ps, init, s, s2, t, r) && Aside(ps, s, s2, t, r)
    ensures RegionOk(ps, s2, init, r)
  {
    assert ThreadOk(ps, s, init, t);
    NobodyElse(ps, init, s, t, r);
    SameLog(ps, init, s, s2, t, r);
  }

  lemma HolderThread(ps: Programs, init: seq<seq<byte>>, s: State, s2: State, t: nat, r: nat)
    requires Inv(ps, init, s) && Holds(ps, init, s, s2, t, r) && OwnSeen(ps, init, s, s2, t)
    requires GoesOn(ps, init, s, s2, t, r) && Aside(ps, s, s2, t, r)
    ensures ThreadOk(ps, s2, init, t)
  {
    assert ThreadOk(ps, s, init, t);
    OwnThread(ps, init, s, s2, t, r);
  }

  /** The thread's record of what it saw is as before, or one right entry longer if its read is over. */
  ghost predicate OwnSeen(ps: Programs, init: seq<seq<byte>>, s: State, s2: State, t: nat)
    requires t < |ps| && t < |s.threads| && t < |s2.threads|
  {
    var th, th2 := s.threads[t], s2.threads[t];
    if th2.seen == th.seen then th.phase.Writing? || !th2.phase.Writing?
    else
      && th2.seen != [] && th2.seen[..|th2.seen|-1] == th.seen && th2.seen[|th2.seen|-1].index == th.next
      && SeenOk(ps, s2, init, t, th2.seen[|th2.seen|-1])
  }

  lemma PatchMore(before: seq<byte>, offset: nat, b: seq<byte>, done: nat)
    requires offset + |b| <= |before| && done < |b|
    ensures Patch(before, offset, b[..done])[offset + done := b[done]] == Patch(before, offset, b[..done+1])
  {}

  lemma ByteRead(before: seq<byte>, bytes: seq<byte>, a: Access, got: seq<byte>)
    requires Halfway(before, bytes, a, Reading(got)) && |got| < a.width
    ensures Halfway(before, bytes, a, Reading(got + [bytes[a.offset + |got|]]))
  {
    assert bytes[a.offset..a.offset + |got| + 1] == got + [bytes[a.offset + |got|]];
  }

  lemma AllRead(before: seq<byte>, bytes: seq<byte>, a: Access, got: seq<byte>)
    requires Halfway(before, bytes, a, Reading(got)) && |got| == a.width
    ensures Value(got) == Cell(before, a)
    ensures Halfway(before, bytes, a, Writing(a.op.Modify(Value(got), a.width), 0))
  {
    assert got == before[a.offset..a.offset + a.width];
    NothingWritten(before, a, a.op.Modify(Value(got), a.width));
  }

  lemma NothingWritten(before: seq<byte>, a: Access, value: nat)
    requires Inside(a, |before|)
    ensures Patch(before, a.offset, Bytes(value, a.width)[..0]) == before
  {}

  lemma Exchanged(before: seq<byte>, bytes: seq<byte>, a: Access)
    requires Halfway(before, bytes, a, Exchanging) && a.op.Xchg?
    ensures Cell(bytes, a) == Cell(before, a) && Halfway(before, Applied(bytes, a), a, Writing(a.op.src, a.width))
  {
    assert Bytes(a.op.src, a.width)[..a.width] == Bytes(a.op.src, a.width);
  }

  lemma ByteWritten(before: seq<byte>, bytes: seq<byte>, a: Access, value: nat, done: nat)
    requires Halfway(before, bytes, a, Writing(value, done)) && done < a.width
    ensures |bytes| == |before|
    ensures Halfway(before, bytes[a.offset + done := Bytes(value, a.width)[done]], a, Writing(value, done + 1))
  {
    PatchMore(before, a.offset, Bytes(value, a.width), done);
  }

  lemma ReadByteKeeps(ps: Programs, init: seq<seq<byte>>, s: State, t: nat)
    requires Inv(ps, init, s) && Shaped(ps, s) && t < |ps| && s.threads[t].next < |ps[t]|
    requires s.threads[t].phase.Reading? && |s.threads[t].phase.got| < ps[t][s.threads[t].next].width
    ensures Inv(ps, init, Step(ps, s, t))
  {
    var s2, a := Step(ps, s, t), ps[t][s.threads[t].next];
    var r := a.region;
    assert ThreadOk(ps, s, init, t);
    AccessInside(ps, init, s, t, s.threads[t].next);
    assert s2 == With(s, t, s2.threads[t], r, s2.regions[r]);
    var log := s.regions[r].log;
    ByteRead(Fold(init[r], log[..|log|-1]), s.regions[r].bytes, a, s.threads[t].phase.got);
    HolderKeeps(ps, init, s, s2, t, r);
  }

  /** Once its read is over, a thread has seen the cell as it was at its turn. */
  lemma SawNow(ps: Programs, init: seq<seq<byte>>, s: State, s2: State, t: nat, r: nat, value: nat)
    requires Inv(ps, init, s) && Holds(ps, init, s, s2, t, r)
    requires s2.threads[t].seen == s.threads[t].seen + [Seen(s.threads[t].next, value)]
    requires var a := ps[t][s.threads[t].next];
      var log := s.regions[r].log;
      && log != [] && AllInside(log, |init[r]|) && log[|log|-1] == Entry(t, s.threads[t].next, a)
      && value == Cell(Fold(init[r], log[..|log|-1]), a)
    ensures OwnSeen(ps, init, s, s2, t)
  {
    var log := s.regions[r].log;
    assert SawAt(s2.regions[r].log, init[r], t, Seen(s.threads[t].next, value), |log| - 1);
    assert SeenOk(ps, s2, init, t, Seen(s.threads[t].next, value));
    assert s2.threads[t].seen[..|s2.threads[t].seen|-1] == s.threads[t].seen;
  }

  lemma ReadEndKeeps(ps: Programs, init: seq<seq<byte>>, s: State, t: nat)
    requires Inv(ps, init, s) && Shaped(ps, s) && t < |ps| && s.threads[t].next < |ps[t]|
    requires s.threads[t].phase.Reading? && |s.threads[t].phase.got| == ps[t][s.threads[t].next].width
    ensures Inv(ps, init, Step(ps, s, t))
  {
    var s2, a := Step(ps, s, t), ps[t][s.threads[t].next];
    var r, got := a.region, s.threads[t].phase.got;
    assert ThreadOk(ps, s, init, t);
    AccessInside(ps, init, s, t, s.threads[t].next);
    assert s2 == With(s, t, s2.threads[t], r, s2.regions[r]);
    var log := s.regions[r].log;
    AllRead(Fold(init[r], log[..|log|-1]), s.regions[r].bytes, a, got);
    SawNow(ps, init, s, s2, t, r, Value(got));
    HolderKeeps(ps, init, s, s2, t, r);
  }

  lemma ExchangeKeeps(ps: Programs, init: seq<seq<byte>>, s: State, t: nat)
    requires Inv(ps, init, s) && Shaped(ps, s) && t < |ps| && s.threads[t].next < |ps[t]|
    requires s.threads[t].phase.Exchanging?
    ensures Inv(ps, init, Step(ps, s, t))
  {
    var s2, a := Step(ps, s, t), ps[t][s.threads[t].next];
    var r := a.region;
    assert ThreadOk(ps, s, init, t);
    AccessInside(ps, init, s, t, s.threads[t].next);
    assert s2 == With(s, t, s2.threads[t], r, s2.regions[r]);
    var log := s.regions[r].log;
    Exchanged(Fold(init[r], log[..|log|-1]), s.regions[r].bytes, a);
    SawNow(ps, init, s, s2, t, r, Cell(s.regions[r].bytes, a));
    HolderKeeps(ps, init, s, s2, t, r);
  }

  lemma WriteByteKeeps(ps: Programs, init: seq<seq<byte>>, s: State, t: nat)
    requires Inv(ps, init, s) && Shaped(ps, s) && t < |ps| && s.threads[t].next < |ps[t]|
    requires s.threads[t].phase.Writing? && s.threads[t].phase.done < ps[t][s.threads[t].next].width
    ensures Inv(ps, init, Step(ps, s, t))
  {
    var s2, a := Step(ps, s, t), ps[t][s.threads[t].next];
    var r := a.region;
    assert ThreadOk(ps, s, init, t);
    AccessInside(ps, init, s, t, s.threads[t].next);
    assert s2 == With(s, t, s2.threads[t], r, s2.regions[r]);
    var log := s.regions[r].log;
    ByteWritten(Fold(init[r], log[..|log|-1]), s.regions[r].bytes, a, s.threads[t].phase.value,
      s.threads[t].phase.done);
    HolderKeeps(ps, init, s, s2, t, r);
  }

  lemma ReleaseKeeps(ps: Programs, init: seq<seq<byte>>, s: State, t: nat)
    requires Inv(ps, init, s) && Shaped(ps, s) && t < |ps| && s.threads[t].next < |ps[t]|
    requires s.threads[t].phase.Writing? && s.threads[t].phase.done == ps[t][s.threads[t].next].width
    ensures Inv(ps, init, Step(ps, s, t))
  {
    var s2, th := Step(ps, s, t), s.threads[t];
    var a := ps[t][th.next];
    var r := a.region;
    assert ThreadOk(ps, s, init, t) && Critical(ps, s, t, r);
    AccessInside(ps, init, s, t, th.next);
    if th.next + 1 < |ps[t]| { AccessInside(ps, init, s, t, th.next + 1); }
    NobodyElse(ps, init, s, t, r);
    assert Aside(ps, s, s2, t, r);
    ReleaseRegion(ps, init, s, s2, t, r);
    ReleaseThread(ps, init, s, s2, t, r);
    StepAside(ps, init, s, s2, t, r);
  }

  ghost predicate Releases(ps: Programs, s: State, s2: State, t: nat, r: nat) {
    && Critical(ps, s, t, r) && r < |s.regions| && r < |s2.regions| && t < |s2.threads|
    && s.threads[t].phase.Writing? && s.threads[t].phase.done == ps[t][s.threads[t].next].width
    && s2.threads[t] == Thread(s.threads[t].next + 1, Between, s.threads[t].seen)
    && s2.regions[r] == s.regions[r].(locked := false)
  }

  lemma ReleaseRegion(ps: Programs, init: seq<seq<byte>>, s: State, s2: State, t: nat, r: nat)
    requires Inv(ps, init, s) && Aside(ps, s, s2, t, r) && Releases(ps, s, s2, t, r)
    ensures RegionOk(ps, s2, init, r)
  {
    var log, a := s.regions[r].log, ps[t][s.threads[t].next];
    assert ThreadOk(ps, s, init, t) && RegionOk(ps, s, init, r);
    forall k | 0 <= k < |log| ensures EntryOk(ps, s2, r, log[k]) { EntryStays(ps, s, s2, t, r, r, log[k]); }
    var b := Bytes(s.threads[t].phase.value, a.width);
    assert b[..a.width] == b;
  }

  lemma ReleaseThread(ps: Programs, init: seq<seq<byte>>, s: State, s2: State, t: nat, r: nat)
    requires Inv(ps, init, s) && Aside(ps, s, s2, t, r) && Releases(ps, s, s2, t, r)
    requires ThreadShaped(ps, s2, t) && RegionOk(ps, s2, init, r)
    ensures ThreadOk(ps, s2, init, t)
  {
    assert ThreadOk(ps, s, init, t);
    OwnThread(ps, init, s, s2, t, r);
  }

  lemma StepKeeps(ps: Programs, init: seq<seq<byte>>, s: State, t: nat)
    requires Inv(ps, init, s) && t < |ps|
    ensures Shaped(ps, s) && Inv(ps, init, Step(ps, s, t))
  {
    InvShaped(ps, init, s);
    assert ThreadOk(ps, s, init, t);
    var th := s.threads[t];
    if th.next < |ps[t]| {
      var a := ps[t][th.next];
      match th.phase
      case Between =>
        if a.op.Load? { LoadKeeps(ps, init, s, t); }
        else if !s.regions[a.region].locked { AcquireKeeps(ps, init, s, t); }
      case Loading(_) => LoadKeeps(ps, init, s, t);
      case Reading(got) => if |got| < a.width { ReadByteKeeps(ps, init, s, t); } else { ReadEndKeeps(ps, init, s, t); }
      case Exchanging => ExchangeKeeps(ps, init, s, t);
      case Writing(_, done) =>
        if done < a.width { WriteByteKeeps(ps, init, s, t); } else { ReleaseKeeps(ps, init, s, t); }
    }
  }
}
