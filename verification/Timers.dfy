/** Kernel time (emulator/include/kernel/timers.h): seconds and nanoseconds, normalised lazily. */
module Timers {
  const NS_PER_S: nat := 1_000_000_000

  datatype PreciseTime = PreciseTime(seconds: nat, nanoseconds: nat) {
    function Count(): nat { seconds * NS_PER_S + nanoseconds }

    predicate Less(other: PreciseTime) {
      if seconds < other.seconds then true
      else if seconds > other.seconds then false
      else nanoseconds < other.nanoseconds
    }

    predicate Greater(other: PreciseTime) {
      if seconds > other.seconds then true
      else if seconds < other.seconds then false
      else nanoseconds > other.nanoseconds
    }

    /** Up to and including a full second of nanoseconds. */
    predicate Normal() { nanoseconds <= NS_PER_S }
  }

  datatype TimeDifference = TimeDifference(seconds: nat, nanoseconds: nat) {
    function Count(): nat { seconds * NS_PER_S + nanoseconds }
  }

  /** Normalises all but exactly one second of nanoseconds, which stays as it is. */
  method FromNanoSeconds(ns: nat) returns (res: TimeDifference)
    ensures res.Count() == ns
    ensures res.nanoseconds <= NS_PER_S && (res.nanoseconds == NS_PER_S <==> ns == NS_PER_S)
  {
    res := TimeDifference(0, ns);
    if res.nanoseconds > NS_PER_S {
      res := TimeDifference(res.seconds + res.nanoseconds / NS_PER_S, res.nanoseconds % NS_PER_S);
    }
  }

  /** Addition loses no time; its nanoseconds stop just short of normal form when they add up to exactly
      one second. */
  method Plus(t: PreciseTime, dt: TimeDifference) returns (res: PreciseTime)
    ensures res.Count() == t.Count() + dt.Count()
    ensures res.Normal() && (res.nanoseconds == NS_PER_S <==> t.nanoseconds + dt.nanoseconds == NS_PER_S)
  {
    var nanoseconds := t.nanoseconds + dt.nanoseconds;
    res := PreciseTime(t.seconds + dt.seconds, nanoseconds);
    if nanoseconds > NS_PER_S {
      res := PreciseTime(res.seconds + nanoseconds / NS_PER_S, nanoseconds % NS_PER_S);
    }
  }

  /** The order on normal times is that of their counts, except that a full second of nanoseconds comes
      before the next second, which is the same moment. */
  lemma LessIsCount(a: PreciseTime, b: PreciseTime)
    requires a.Normal() && b.Normal()
    ensures a.Less(b) <==>
      a.Count() < b.Count() || (b.seconds == a.seconds + 1 && a.nanoseconds == NS_PER_S && b.nanoseconds == 0)
    ensures a.Greater(b) <==> b.Less(a)
  {
    if a.seconds < b.seconds {
      assert b.seconds * NS_PER_S >= (a.seconds + 1) * NS_PER_S;
    } else if b.seconds < a.seconds {
      assert a.seconds * NS_PER_S >= (b.seconds + 1) * NS_PER_S;
    }
  }
}
