/** From an IVF timebase through whole nanoseconds to the 90 kHz RTP increment
    (media/frame_reader.rs:168-172, wrtc/native/direct_transport.rs:648-650). */
module VideoTiming {
  import opened Media
  import IvfDemux

  /** The 90 kHz increment before the cast to u32: rounded, not truncated. */
  function VideoTicks(nanos: nat): nat {
    (nanos * 90_000 + 500_000_000) / 1_000_000_000
  }

  function FrameTicks(den: nat, num: nat): nat {
    VideoTicks(IvfDemux.FrameDuration(den, num))
  }

  /** The increment against the exact value 90000 * num / den, multiplied out by den:
      never above by more than half a tick, never below by half a tick and 9/100000. */
  lemma TickError(den: nat, num: nat)
    requires 0 < den && 0 < num
    ensures 2 * (FrameTicks(den, num) * den - 90_000 * num) <= den
    ensures 100_000 * (90_000 * num - FrameTicks(den, num) * den) < 50_009 * den
  {
    var nanos := IvfDemux.FrameDuration(den, num);
    var ticks := VideoTicks(nanos);
    var lost := num * 1_000_000_000 % den;
    assert nanos * den == num * 1_000_000_000 - lost;
    var spare := (nanos * 90_000 + 500_000_000) % 1_000_000_000;
    assert ticks * 1_000_000_000 == nanos * 90_000 + 500_000_000 - spare;
    ErrorIdentity(ticks, nanos, den, num, lost, spare);
    SpareBound(spare, den);
  }

  /** Both floors at once: what each division drops. */
  lemma ErrorIdentity(ticks: nat, nanos: nat, den: nat, num: nat, lost: nat, spare: nat)
    requires nanos * den == num * 1_000_000_000 - lost
    requires ticks * 1_000_000_000 == nanos * 90_000 + 500_000_000 - spare
    ensures ticks * den * 1_000_000_000 == (num * 1_000_000_000 - lost) * 90_000 + (500_000_000 - spare) * den
  {
    calc {
      ticks * den * 1_000_000_000;
      (ticks * 1_000_000_000) * den;
      (nanos * 90_000 + 500_000_000 - spare) * den;
      (nanos * den) * 90_000 + (500_000_000 - spare) * den;
    }
  }

  lemma SpareBound(spare: nat, den: nat)
    requires spare < SECOND
    ensures (500_000_000 - spare) * den <= 500_000_000 * den
    ensures (spare - 500_000_000) * den <= 499_999_999 * den
  {
    Product(spare, den);
    Product(999_999_999 - spare, den);
    assert (500_000_000 - spare) * den == 500_000_000 * den - spare * den;
    assert (spare - 500_000_000) * den == 499_999_999 * den - (999_999_999 - spare) * den;
  }

  lemma Product(a: nat, b: nat)
    ensures a * b >= 0
    ensures a >= 1 ==> a * b >= b
  {
    if a >= 1 {
      assert a * b == (a - 1) * b + b;
      Product(a - 1, b);
    }
  }

  /** Exact when 90000 * num / den is a whole number, and only then. */
  lemma TickExact(den: nat, num: nat)
    requires 0 < den && 0 < num
    ensures FrameTicks(den, num) * den == 90_000 * num <==> 90_000 * num % den == 0
  {
    TickError(den, num);
    var ticks := FrameTicks(den, num);
    if 90_000 * num % den == 0 {
      var exact := 90_000 * num / den;
      assert 90_000 * num == exact * den;
      Whole(ticks, exact, den);
    } else if ticks * den == 90_000 * num {
      MultipleHasNoRemainder(90_000 * num, ticks, den);
    }
  }

  lemma Whole(ticks: int, exact: int, den: nat)
    requires 0 < den
    requires 2 * (ticks * den - exact * den) <= den
    requires 100_000 * (exact * den - ticks * den) < 50_009 * den
    ensures ticks == exact
  {
    if ticks > exact {
      assert ticks * den - exact * den == (ticks - exact) * den;
      Product(ticks - exact, den);
    } else if ticks < exact {
      assert exact * den - ticks * den == (exact - ticks) * den;
      Product(exact - ticks, den);
    }
  }

  lemma MultipleHasNoRemainder(x: nat, k: nat, den: nat)
    requires 0 < den && x == k * den
    ensures x % den == 0
  {
    var q, r := x / den, x % den;
    assert x == q * den + r;
    if k > q {
      assert (k - q) * den == k * den - q * den;
      Product(k - q, den);
    } else if k < q {
      assert (q - k) * den == q * den - k * den;
      Product(q - k, den);
    }
  }

  /** n increments against the exact time of n frames, 90000 * n * num / den: at most n half ticks
      above, less than n times half a tick and 9/100000 below; and exact for some n > 0 only if one
      increment is. */
  ghost predicate KeepsTime(den: nat, num: nat, n: nat) {
    var ticks, exact := n * FrameTicks(den, num) * den, n * (90_000 * num);
    && 2 * (ticks - exact) <= n * den
    && 100_000 * (exact - ticks) <= 50_009 * (n * den)
    && (0 < n ==> 100_000 * (exact - ticks) < 50_009 * (n * den))
    && (0 < n && 0 < den ==> (ticks == exact <==> 90_000 * num % den == 0))
  }

  /** Over n frames the error grows no faster than n times; it is zero for all n exactly when
      one increment is exact. */
  lemma DriftBound(den: nat, num: nat, n: nat)
    requires 0 < den && 0 < num
    ensures KeepsTime(den, num, n)
  {
    TickError(den, num);
    TickExact(den, num);
    var over := FrameTicks(den, num) * den - 90_000 * num;
    Scale(den, over, n);
    Regroup(n, FrameTicks(den, num), den, 90_000 * num);
  }

  lemma Regroup(n: nat, ticks: nat, den: nat, exact: nat)
    ensures n * ticks * den - n * exact == n * (ticks * den - exact)
  {
  }

  lemma {:induction false} Scale(den: nat, over: int, n: nat)
    requires 2 * over <= den && -100_000 * over < 50_009 * den
    ensures 2 * (n * over) <= n * den
    ensures 0 < n ==> -100_000 * (n * over) < 50_009 * (n * den)
    ensures 0 < n ==> (n * over == 0 <==> over == 0)
    ensures over > 0 ==> n * over >= 0
    ensures over < 0 ==> n * over <= 0
  {
    if n > 0 {
      Scale(den, over, n - 1);
      assert n * over == (n - 1) * over + over && n * den == (n - 1) * den + den;
    }
  }
}
