/** platform/linux/input.c: the microsecond arithmetic behind tap detection (usecs_elapsed,
    usecs_subtract).  `unsigned int` has 32 bits. */
module Clock {
  import opened Common

  const SECOND := 1000000000

  /** `struct timespec`. */
  datatype Timespec = Timespec(sec: int, nsec: int)

  predicate Normal(t: Timespec) {
    0 <= t.nsec < SECOND
  }

  function Nanos(t: Timespec): int {
    t.sec * SECOND + t.nsec
  }

  /** Division as C does it, towards zero. */
  function Quotient(a: int, b: int): int
    requires b > 0
  {
    if a >= 0 then a / b else -(-a / b)
  }

  function UsecsElapsed(cur: Timespec, stamp: Timespec): (usec: nat)
    ensures usec < U32_RANGE
  {
    var sec := cur.sec - stamp.sec;
    if sec == 0 then ToU32(Quotient(cur.nsec - stamp.nsec, 1000))
    else
      var usec := ToU32(Quotient(SECOND - stamp.nsec + cur.nsec, 1000));
      ToU32(usec + (sec - 1) * 1000000)
  }

  lemma Whole(q: int, k: int)
    ensures (q + 1000 * k) / 1000 == q / 1000 + k
  {
  }

  lemma Truncate(a: int, b: int)
    ensures ToU32(ToU32(a) + b) == ToU32(a + b)
  {
    var q := a / U32_RANGE;
    assert a == q * U32_RANGE + ToU32(a);
    Shifted(ToU32(a) + b, q);
  }

  lemma Shifted(n: int, q: int)
    ensures ToU32(n + q * U32_RANGE) == ToU32(n)
  {
    var p, r := n / U32_RANGE, n % U32_RANGE;
    assert n + q * U32_RANGE == (p + q) * U32_RANGE + r;
  }

  /** For ordered timestamps the result is the number of whole microseconds between them, taken
      modulo 2^32; so it is exact if and only if that number is below 2^32. */
  lemma ElapsedIsFloor(cur: Timespec, stamp: Timespec)
    requires Normal(cur) && Normal(stamp) && Nanos(stamp) <= Nanos(cur)
    ensures var exact := (Nanos(cur) - Nanos(stamp)) / 1000;
            && UsecsElapsed(cur, stamp) == ToU32(exact)
            && (UsecsElapsed(cur, stamp) == exact <==> exact < U32_RANGE)
  {
    var sec, n := cur.sec - stamp.sec, cur.nsec - stamp.nsec;
    assert sec >= 0;
    assert Nanos(cur) - Nanos(stamp) == sec * SECOND + n;
    if sec > 0 {
      var rest := SECOND + n;
      assert sec * SECOND + n == rest + 1000 * ((sec - 1) * 1000000);
      Whole(rest, (sec - 1) * 1000000);
      Truncate(rest / 1000, (sec - 1) * 1000000);
    }
  }

  /** A timestamp the program keeps, such as `last_tap_up`. */
  class Stamp {
    var sec: int
    var nsec: int

    constructor (t: Timespec)
      ensures Time() == t
    {
      sec, nsec := t.sec, t.nsec;
    }

    function Time(): Timespec
      reads this
    {
      Timespec(sec, nsec)
    }

    /** `usecs_subtract`: the time moves back by exactly `usecs` microseconds and stays normal, or the
        request is refused. */
    method Subtract(usecs: nat) returns (ok: bool)
      requires Normal(Time()) && usecs < U32_RANGE
      modifies this
      ensures ok <==> usecs <= 1000000 && old(sec) != 0
      ensures !ok ==> Time() == old(Time())
      ensures ok ==> Normal(Time()) && Nanos(Time()) == old(Nanos(Time())) - 1000 * usecs
      ensures ok ==> Time() == Earlier(old(Time()), usecs)
    {
      if usecs > 1000000 || sec == 0 {
        return false;
      }
      var nsecs := ToU32(usecs * 1000);
      if nsecs <= nsec {
        nsec := nsec - nsecs;
      } else {
        nsecs := nsecs - nsec;
        sec := sec - 1;
        nsec := SECOND - nsecs;
      }
      OneNormalForm(Time(), Earlier(old(Time()), usecs));
      ok := true;
    }
  }

  /** The normal timestamp `usecs` microseconds before `t`. */
  function Earlier(t: Timespec, usecs: nat): (r: Timespec)
    requires Normal(t)
    ensures Normal(r) && Nanos(r) == Nanos(t) - 1000 * usecs
  {
    var n := Nanos(t) - 1000 * usecs;
    Timespec(n / SECOND, n % SECOND)
  }

  lemma OneNormalForm(a: Timespec, b: Timespec)
    requires Normal(a) && Normal(b) && Nanos(a) == Nanos(b)
    ensures a == b
  {
  }

  /** Moving a timestamp back lengthens every later measurement by exactly that much; in particular the
      time elapsed since the moved timestamp, measured at the original one, is the amount
      subtracted. */
  lemma SubtractThenElapsed(later: Timespec, t: Timespec, usecs: nat)
    requires Normal(later) && Normal(t) && Nanos(t) <= Nanos(later)
    requires (Nanos(later) - Nanos(t)) / 1000 + usecs < U32_RANGE
    ensures UsecsElapsed(later, Earlier(t, usecs)) == UsecsElapsed(later, t) + usecs
    ensures later == t ==> UsecsElapsed(later, Earlier(t, usecs)) == usecs
  {
    ElapsedIsFloor(later, t);
    ElapsedIsFloor(later, Earlier(t, usecs));
    Whole(Nanos(later) - Nanos(t), usecs);
  }
}
