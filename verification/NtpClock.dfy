/** get_current_ntp_time and the abs-send-time extension (wrtc/native/direct_transport.rs),
    against section 6 of RFC 5905. A clock reading is whole seconds since 1970 and nanoseconds. */
module NtpClock {
  import opened Media
  import RtpTransport

  const UNIX_OFFSET := 2_208_988_800 // seconds from 1900 to 1970

  datatype Clock = Clock(secs: nat, nanos: nat) {
    predicate Valid() {
      nanos < SECOND
    }

    /** Nanoseconds since 1900. */
    function Total(): nat {
      (secs + 2_208_988_800) * SECOND + nanos
    }

    /** Eras of 2^32 seconds since 1900. */
    function Era(): nat {
      (secs + 2_208_988_800) / TWO32
    }
  }

  function Fraction(nanos: nat): nat {
    nanos * TWO32 / SECOND
  }

  /** Seconds cast to u32, fraction cast to u32, joined. */
  function NtpTime(c: Clock): nat {
    (c.secs + UNIX_OFFSET) % TWO32 * TWO32 + Fraction(c.nanos) % TWO32
  }

  /** The fraction fits its 32 bits, and tells every two nanoseconds apart. */
  lemma FractionStrict(a: nat, b: nat)
    requires a < b < SECOND
    ensures Fraction(a) < Fraction(b) < TWO32
  {
    assert b * TWO32 >= a * TWO32 + TWO32;
  }

  /** Two readings less than an era apart keep their order, strictly, exactly when they fall in
      the same era: the 64-bit value starts over in February 2036. */
  lemma OrderKeptIff(a: Clock, b: Clock)
    requires a.Valid() && b.Valid()
    requires a.Total() < b.Total() < a.Total() + TWO32 * SECOND
    ensures NtpTime(a) < NtpTime(b) <==> a.Era() == b.Era()
  {
    var s, t := a.secs + UNIX_OFFSET, b.secs + UNIX_OFFSET;
    assert s <= t <= s + TWO32;
    FractionBound(a.nanos);
    FractionBound(b.nanos);
    if a.nanos < b.nanos {
      FractionStrict(a.nanos, b.nanos);
    } else if b.nanos < a.nanos {
      FractionStrict(b.nanos, a.nanos);
    }
    if s == t {
      assert a.nanos < b.nanos;
    } else {
      SecondsOrder(s, t);
      if t == s + TWO32 {
        assert b.nanos < a.nanos;
      }
    }
  }

  lemma FractionBound(nanos: nat)
    requires nanos < SECOND
    ensures Fraction(nanos) < TWO32
  {
  }

  lemma SecondsOrder(s: nat, t: nat)
    requires s < t <= s + TWO32
    ensures t < s + TWO32 ==> (s % TWO32 < t % TWO32 <==> s / TWO32 == t / TWO32) && s % TWO32 != t % TWO32
    ensures t == s + TWO32 ==> s % TWO32 == t % TWO32 && s / TWO32 != t / TWO32
  {
  }

  /** The 64-bit value is the time since 1900, 70 years of which 17 had a leap day before 1970, in units of
      2^-32 seconds, rounded down, without its era. */
  lemma NtpTimeExact(c: Clock)
    requires c.Valid()
    ensures c.Total() == (c.secs + (70 * 365 + 17) * 86_400) * SECOND + c.nanos
    ensures NtpTime(c) == c.Total() * TWO32 / SECOND % TWO64
  {
    var t, f := c.secs + UNIX_OFFSET, Fraction(c.nanos);
    FractionBound(c.nanos);
    assert c.Total() * TWO32 == SECOND * (t * TWO32) + c.nanos * TWO32;
    assert c.Total() * TWO32 / SECOND == t * TWO32 + f;
    DropEra(t, f);
  }

  lemma DropEra(t: nat, f: nat)
    requires f < TWO32
    ensures (t * TWO32 + f) % TWO64 == t % TWO32 * TWO32 + f
  {
    var e := t / TWO32;
    assert t == e * TWO32 + t % TWO32;
    assert t * TWO32 + f == e * TWO64 + (t % TWO32 * TWO32 + f);
    assert t % TWO32 * TWO32 + f < TWO64;
  }

  /** 24-bit send time: 6 bits of seconds, 18 of fraction. Cut from a fraction that was itself
      cut, it is still the exact floor of the reading, and the offset to 1900 drops out. */
  lemma AbsSendTimeExact(c: Clock)
    requires c.Valid()
    ensures RtpTransport.AbsTime(NtpTime(c)) == c.Total() * 0x4_0000 / SECOND % TWO24
    ensures RtpTransport.AbsTime(NtpTime(c)) == (c.secs * SECOND + c.nanos) * 0x4_0000 / SECOND % TWO24
  {
    FractionBound(c.nanos);
    var s := (c.secs + UNIX_OFFSET) % TWO32;
    var f := c.nanos * 0x4_0000 / SECOND;
    FractionCut(c.nanos);
    assert NtpTime(c) / 0x4000 == s * 0x4_0000 + Fraction(c.nanos) / 0x4000;
    assert NtpTime(c) / 0x4000 == s * 0x4_0000 + f;
    Shift(c.secs + UNIX_OFFSET, c.nanos);
    Shift(c.secs, c.nanos);
    WholeSeconds(c.secs, f);
  }

  /** Nested floors: cutting 32 bits to 18 is cutting to 18 at once. */
  lemma FractionCut(nanos: nat)
    ensures Fraction(nanos) / 0x4000 == nanos * 0x4_0000 / SECOND
  {
    var x := nanos * 0x4_0000;
    assert nanos * TWO32 == x * 0x4000;
    assert x * 0x4000 / SECOND / 0x4000 == x / SECOND;
  }

  lemma Shift(secs: nat, nanos: nat)
    ensures (secs * SECOND + nanos) * 0x4_0000 / SECOND == secs * 0x4_0000 + nanos * 0x4_0000 / SECOND
  {
    assert (secs * SECOND + nanos) * 0x4_0000 == SECOND * (secs * 0x4_0000) + nanos * 0x4_0000;
  }

  /** Eras and the offset to 1900 are whole multiples of the 64 seconds the field can hold. */
  lemma WholeSeconds(secs: nat, f: nat)
    ensures ((secs + UNIX_OFFSET) % TWO32 * 0x4_0000 + f) % TWO24 == (secs * 0x4_0000 + f) % TWO24
    ensures ((secs + UNIX_OFFSET) * 0x4_0000 + f) % TWO24 == (secs * 0x4_0000 + f) % TWO24
  {
    var t := secs + UNIX_OFFSET;
    var e := t / TWO32;
    assert t == e * TWO32 + t % TWO32;
    assert UNIX_OFFSET * 0x4_0000 == 34_515_450 * TWO24;
    assert t * 0x4_0000 + f == (secs * 0x4_0000 + f) + 34_515_450 * TWO24;
    assert t * 0x4_0000 + f == (t % TWO32 * 0x4_0000 + f) + e * 0x400_0000 * TWO24;
  }
}
