/** The interval vector itself (emulator/include/intervalvector.h): intervals that own items, kept
    sorted in a vector that is searched, split, inserted into and erased from in place. */
module IntervalVectors {
  import opened Types
  import opened IntervalLaws

  /** std::lower_bound on sorted keys: the first position whose key is not below `v`. */
  method LowerBound(keys: seq<u64>, v: u64) returns (first: nat)
    requires forall i, j | 0 <= i < j < |keys| :: keys[i] <= keys[j]
    ensures first <= |keys|
    ensures forall i | 0 <= i < first :: keys[i] < v
    ensures forall i | first <= i < |keys| :: v <= keys[i]
  {
    first := 0;
    var len: nat := |keys|;
    while len > 0
      invariant first + len <= |keys|
      invariant forall i | 0 <= i < first :: keys[i] < v
      invariant forall i | first + len <= i < |keys| :: v <= keys[i]
    {
      var half := len / 2;
      if keys[first + half] < v {
        first, len := first + half + 1, len - half - 1;
      } else {
        len := half;
      }
    }
  }

  /** std::upper_bound on sorted keys: the first position whose key is above `v`. */
  method UpperBound(keys: seq<u64>, v: u64) returns (first: nat)
    requires forall i, j | 0 <= i < j < |keys| :: keys[i] <= keys[j]
    ensures first <= |keys|
    ensures forall i | 0 <= i < first :: keys[i] <= v
    ensures forall i | first <= i < |keys| :: v < keys[i]
  {
    first := 0;
    var len: nat := |keys|;
    while len > 0
      invariant first + len <= |keys|
      invariant forall i | 0 <= i < first :: keys[i] <= v
      invariant forall i | first + len <= i < |keys| :: v < keys[i]
    {
      var half := len / 2;
      if keys[first + half] <= v {
        first, len := first + half + 1, len - half - 1;
      } else {
        len := half;
      }
    }
  }

  class IntervalValue<T(==)> {
    const start: u64
    var end: u64
    var items: seq<T>

    constructor (start: u64, end: u64, items: seq<T>)
      ensures this.start == start && this.end == end && this.items == items
    {
      this.start, this.end, this.items := start, end, items;
    }

    ghost function ToPiece(): Piece<T>
      reads this
    {
      Piece(start, end, multiset(items))
    }

    method Add(item: T)
      modifies this`items
      ensures items == old(items) + [item]
    {
      items := items + [item];
    }

    /** std::partition: items ending by `value` come first, in no particular order. */
    method Partition(itemEnd: T -> u64, value: u64) returns (mid: nat)
      modifies this`items
      ensures mid <= |items| && multiset(items) == old(multiset(items))
      ensures forall i | 0 <= i < mid :: itemEnd(items[i]) <= value
      ensures forall i | mid <= i < |items| :: itemEnd(items[i]) > value
    {
      mid := 0;
      var last := |items|;
      while mid < last
        invariant mid <= last <= |items| && multiset(items) == old(multiset(items))
        invariant forall i | 0 <= i < mid :: itemEnd(items[i]) <= value
        invariant forall i | last <= i < |items| :: itemEnd(items[i]) > value
      {
        if itemEnd(items[mid]) <= value {
          mid := mid + 1;
        } else {
          last := last - 1;
          items := items[mid := items[last]][last := items[mid]];
        }
      }
    }

    /** Keeps the part below `value` and returns the part from `value` on, unless `value` is not
        strictly inside. */
    method Split(itemEnd: T -> u64, value: u64) returns (right: IntervalValue?<T>)
      modifies this
      ensures right == null <==> value <= start || old(end) <= value
      ensures right == null ==> unchanged(this)
      ensures right != null ==> fresh(right) && Halves(old(ToPiece()), value, itemEnd, ToPiece(), right.ToPiece())
    {
      if value <= start || end <= value { return null; }
      var mid := Partition(itemEnd, value);
      right := new IntervalValue(value, end, items[mid..]);
      assert items == items[..mid] + items[mid..];
      items := items[..mid];
      end := value;
    }
  }

  class IntervalVector<T(==)> {
    const itemEnd: T -> u64
    var values: seq<IntervalValue<T>>
    ghost var Repr: set<IntervalValue<T>>

    constructor (itemEnd: T -> u64)
      ensures this.itemEnd == itemEnd && Repr == {} && Pictures([])
    {
      this.itemEnd := itemEnd;
      values, Repr := [], {};
    }

    /** `ps` lists the intervals of this vector, which are separate objects. */
    ghost predicate Pictures(ps: seq<Piece<T>>)
      reads this, Repr
    {
      && |values| == |ps| && (forall i | 0 <= i < |ps| :: values[i] in Repr)
      && (forall i {:trigger values[i].ToPiece()} | 0 <= i < |ps| :: values[i].ToPiece() == ps[i])
      && (forall i, j | 0 <= i < j < |ps| :: values[i] != values[j])
    }

    function Starts(): (keys: seq<u64>)
      reads this
    {
      seq(|values|, i requires 0 <= i < |values| reads this => values[i].start)
    }

    function Ends(): (keys: seq<u64>)
      reads this, values
    {
      seq(|values|, i requires 0 <= i < |values| reads this, values => values[i].end)
    }

    /** The first interval ending at or after `v`, which need not contain `v`. */
    method Find(v: u64, ghost ps: seq<Piece<T>>) returns (interval: IntervalValue?<T>, i: nat)
      requires Pictures(ps) && Sorted(ps)
      ensures FoundAt(ps, v, i)
      ensures interval == if i == |values| then null else values[i]
    {
      KeysSorted(ps);
      i := LowerBound(Ends(), v);
      interval := if i == |values| then null else values[i];
    }

    lemma KeysSorted(ps: seq<Piece<T>>)
      requires Pictures(ps) && Sorted(ps)
      ensures forall i | 0 <= i < |ps| :: Starts()[i] == ps[i].start && Ends()[i] == ps[i].end
      ensures forall i, j | 0 <= i < j < |ps| :: Starts()[i] <= Starts()[j] && Ends()[i] <= Ends()[j]
    {
      forall i | 0 <= i < |ps| ensures Starts()[i] == ps[i].start && Ends()[i] == ps[i].end {
        assert values[i].ToPiece() == ps[i];
      }
    }

    /** Files an item with the interval that lookup answers; fails when there is none. */
    method Add(v: u64, item: T, ghost ps: seq<Piece<T>>) returns (ok: bool, ghost i: nat)
      requires Pictures(ps) && Sorted(ps)
      modifies Repr
      ensures FoundAt(ps, v, i) && ok == (i < |ps|)
      ensures Pictures(if ok then WithItem(ps, i, item) else ps)
    {
      var interval;
      interval, i := Find(v, ps);
      ok := interval != null;
      if ok {
        assert interval.ToPiece() == ps[i];
        interval.Add(item);
        forall k | 0 <= k < |ps| && k != i ensures values[k].ToPiece() == ps[k] {
          assert old(values[k].ToPiece()) == ps[k];
        }
      }
    }

    method InsertAt(value: IntervalValue<T>, at: nat, ghost ps: seq<Piece<T>>)
      requires Pictures(ps) && at <= |ps| && value !in Repr
      modifies this`values, this`Repr
      ensures Repr == old(Repr) + {value}
      ensures Pictures(Spliced(ps, at, value.ToPiece()))
    {
      ghost var was := values;
      values, Repr := Spliced(values, at, value), Repr + {value};
      ghost var qs := Spliced(ps, at, value.ToPiece());
      forall k | 0 <= k < |qs| ensures values[k].ToPiece() == qs[k] {
        assert k < at ==> was[k].ToPiece() == ps[k];
        assert k > at ==> was[k-1].ToPiece() == ps[k-1];
      }
    }

    /** Inserts before the first start at or after the new one; only the right neighbour is checked. */
    method Insert(value: IntervalValue?<T>, ghost ps: seq<Piece<T>>) returns (ok: bool, ghost pos: nat)
      requires Pictures(ps) && Sorted(ps) && value !in Repr
      modifies this`values, this`Repr
      ensures pos <= |ps|
      ensures value == null ==> ok && Pictures(ps) && Repr == old(Repr)
      ensures value != null ==>
        && InsertsAt(ps, value.start, pos)
        && ok == (pos < |ps| ==> value.end <= ps[pos].start)
        && Repr == (if ok then old(Repr) + {value} else old(Repr))
        && Pictures(if ok then Spliced(ps, pos, value.ToPiece()) else ps)
    {
      ok, pos := true, 0;
      if value == null { return; }
      KeysSorted(ps);
      var at := LowerBound(Starts(), value.start);
      pos := at;
      if at != |values| {
        assert values[at].ToPiece() == ps[at];
        if !(value.end <= values[at].start) { return false, pos; }
      }
      InsertAt(value, at, ps);
    }

    method Reserve(start: u64, end: u64, ghost ps: seq<Piece<T>>) returns (ok: bool, ghost pos: nat)
      requires Pictures(ps) && Sorted(ps)
      modifies this`values, this`Repr
      ensures InsertsAt(ps, start, pos)
      ensures ok == (pos < |ps| ==> end <= ps[pos].start)
      ensures Pictures(if ok then Spliced(ps, pos, Piece(start, end, multiset{})) else ps)
      ensures fresh(Repr - old(Repr))
    {
      var interval := new IntervalValue(start, end, []);
      assert interval.ToPiece() == Piece(start, end, multiset{});
      ok, pos := Insert(interval, ps);
    }

    method SplitInterval(i: nat, v: u64, ghost ps: seq<Piece<T>>) returns (right: IntervalValue?<T>)
      requires Pictures(ps) && i < |ps|
      modifies values[i]
      ensures right == null <==> v <= ps[i].start || ps[i].end <= v
      ensures right == null ==> Pictures(ps)
      ensures right != null ==> fresh(right) && Halves(ps[i], v, itemEnd, values[i].ToPiece(), right.ToPiece())
      ensures right != null ==> Pictures(ps[i := values[i].ToPiece()])
    {
      assert values[i].ToPiece() == ps[i];
      right := values[i].Split(itemEnd, v);
      forall k | 0 <= k < |ps| && k != i ensures values[k].ToPiece() == ps[k] {
        assert old(values[k].ToPiece()) == ps[k];
      }
    }

    /** Splits the interval around `v`, if any. The overlap check never trips. */
    method Split(v: u64, ghost ps: seq<Piece<T>>) returns (ghost qs: seq<Piece<T>>)
      requires Pictures(ps) && Sorted(ps)
      modifies this`values, this`Repr, Repr
      ensures Pictures(qs) && IsSplit(ps, v, itemEnd, qs)
      ensures fresh(Repr - old(Repr))
    {
      qs := ps;
      var interval, i := Find(v, ps);
      if interval == null { return; }
      var right := SplitInterval(i, v, ps);
      if right != null && right.start < right.end {
        ghost var l := values[i].ToPiece();
        RightHalfFits(ps, v, i, itemEnd, l, right.ToPiece(), 0);
        ghost var ok, pos;
        ok, pos := Insert(right, ps[i := l]);
        RightHalfFits(ps, v, i, itemEnd, l, right.ToPiece(), pos);
        qs := Spliced(ps[i := l], i + 1, right.ToPiece());
      }
    }

    method Cut(start: u64, end: u64, ghost ps: seq<Piece<T>>) returns (ghost qs: seq<Piece<T>>, ghost rs: seq<Piece<T>>)
      requires Pictures(ps) && Sorted(ps)
      modifies this`values, this`Repr, Repr
      ensures Pictures(rs) && Sorted(rs) && IsCut(ps, start, end, itemEnd, qs, rs)
      ensures fresh(Repr - old(Repr))
    {
      qs := Split(start, ps);
      SplitKeeps(ps, start, itemEnd, qs);
      rs := Split(end, qs);
      SplitKeeps(qs, end, itemEnd, rs);
    }

    method EraseRange(lo: nat, hi: nat, ghost rs: seq<Piece<T>>)
      requires Pictures(rs) && lo <= hi <= |rs|
      modifies this`values
      ensures Pictures(Without(rs, lo, hi))
    {
      ghost var was := values;
      values := values[..lo] + values[hi..];
      ghost var out := Without(rs, lo, hi);
      forall k | 0 <= k < |out| ensures values[k].ToPiece() == out[k] {
        var at := if k < lo then k else k - lo + hi;
        assert was[at].ToPiece() == rs[at] && values[k] == was[at];
      }
    }

    /** Erases what the cut at `start` and `end` leaves starting in the closed range [start, end]. */
    method Remove(start: u64, end: u64, ghost ps: seq<Piece<T>>)
      returns (ghost qs: seq<Piece<T>>, ghost rs: seq<Piece<T>>, ghost first: nat, ghost afterLast: nat)
      requires Pictures(ps) && Sorted(ps) && start <= end
      modifies this`values, this`Repr, Repr
      ensures IsCut(ps, start, end, itemEnd, qs, rs) && Erases(rs, start, end, first, afterLast)
      ensures Pictures(Without(rs, first, afterLast))
      ensures fresh(Repr - old(Repr))
    {
      qs, rs := Cut(start, end, ps);
      KeysSorted(rs);
      var lo := LowerBound(Starts(), start);
      var hi := UpperBound(Starts(), end);
      ErasesBetween(rs, start, end, lo, hi);
      EraseRange(lo, hi, rs);
      first, afterLast := lo, hi;
    }

    /** The items of every interval that touches [start, end] after cutting, in vector order. */
    method ForEach(start: u64, end: u64, ghost ps: seq<Piece<T>>)
      returns (visited: seq<T>, ghost qs: seq<Piece<T>>, ghost rs: seq<Piece<T>>, ghost first: nat,
               ghost afterLast: nat)
      requires Pictures(ps) && Sorted(ps) && start <= end
      modifies this`values, this`Repr, Repr
      ensures IsCut(ps, start, end, itemEnd, qs, rs) && Visits(rs, start, end, first, afterLast)
      ensures Pictures(rs) && multiset(visited) == Items(rs[first..afterLast])
      ensures fresh(Repr - old(Repr))
    {
      qs, rs := Cut(start, end, ps);
      KeysSorted(rs);
      var lo := LowerBound(Ends(), start);
      var hi := UpperBound(Starts(), end);
      VisitsBetween(rs, start, end, lo, hi);
      first, afterLast := lo, hi;
      visited := Gather(lo, hi, rs);
    }

    method Gather(lo: nat, hi: nat, ghost rs: seq<Piece<T>>) returns (visited: seq<T>)
      requires Pictures(rs) && lo <= hi <= |rs|
      ensures multiset(visited) == Items(rs[lo..hi])
    {
      visited := [];
      for i := lo to hi
        invariant multiset(visited) == Items(rs[lo..i])
      {
        assert values[i].ToPiece() == rs[i];
        visited := visited + values[i].items;
        LastItems(rs, lo, i);
      }
    }

    method Size(ghost ps: seq<Piece<T>>) returns (size: nat)
      requires Pictures(ps)
      ensures size == |Items(ps)|
    {
      size := 0;
      for i := 0 to |values|
        invariant size == |Items(ps[0..i])|
      {
        assert values[i].ToPiece() == ps[i];
        size := size + |values[i].items|;
        LastItems(ps, 0, i);
      }
      assert ps[0..|ps|] == ps;
    }
  }
}
