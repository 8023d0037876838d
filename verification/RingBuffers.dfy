/** utils/ringbuf.rs: a byte ring that keeps the tail of everything written to it. */
module RingBuffers {
  import opened Media

  const DEFAULT_CAPACITY := 4096

  /** Keeping the tail write by write keeps the tail of the whole. */
  lemma LastAppend(s: seq<byte>, p: seq<byte>, cap: nat)
    ensures Last(Last(s, cap) + p, cap) == Last(s + p, cap)
  {
    if |s| > cap {
      var cut := |s| - cap;
      assert s[cut..] + p == (s + p)[cut..];
    }
  }

  /** The bytes held by a buffer `b`, oldest first. */
  function Held(b: seq<byte>, head: nat, full: bool): seq<byte>
    requires head <= |b|
  {
    if full then b[head..] + b[..head] else b[..head]
  }

  /** `b` with `p` written from `head` on, round the end. */
  function Wrapped(b: seq<byte>, head: nat, p: seq<byte>): (r: seq<byte>)
    requires head < |b| && |p| < |b|
    ensures |r| == |b|
  {
    var room := |b| - head;
    if |p| <= room then b[..head] + p + b[head + |p|..]
    else p[room..] + b[|p| - room..head] + p[..room]
  }

  lemma WriteNoWrap(b: seq<byte>, head: nat, full: bool, p: seq<byte>)
    requires head < |b| && head + |p| < |b|
    ensures Held(Wrapped(b, head, p), head + |p|, full) == Last(Held(b, head, full) + p, |b|)
  {
    var b1, n := Wrapped(b, head, p), |p|;
    if full {
      assert b1[head + n..] == b[head + n..] && b1[..head + n] == b[..head] + p;
      assert Held(b, head, full) + p == b[head..head + n] + Held(b1, head + n, full);
    } else {
      assert Held(b1, head + n, full) == Held(b, head, full) + p;
    }
  }

  /** The wrapping case by its pieces: the buffer is a + m + e with the head before e, the write p1 + p2
      goes over e and a. */
  lemma WrapPieces(a: seq<byte>, m: seq<byte>, e: seq<byte>, p1: seq<byte>, p2: seq<byte>, full: bool)
    requires |p1| == |e| && |p2| == |a|
    ensures var held := if full then e + (a + m) else a + m;
            Last(held + (p1 + p2), |a + m + e|) == m + (p1 + p2)
  {
    var held := if full then e + (a + m) else a + m;
    var gone := if full then e + a else a;
    assert held + (p1 + p2) == gone + (m + (p1 + p2));
    TailOf(gone, m + (p1 + p2));
  }

  lemma TailOf(x: seq<byte>, y: seq<byte>)
    ensures Last(x + y, |y|) == y
  {
    assert (x + y)[|x|..] == y;
  }

  lemma WriteWrap(b: seq<byte>, head: nat, full: bool, p: seq<byte>)
    requires head < |b| <= head + |p| && |p| < |b|
    ensures Held(Wrapped(b, head, p), head + |p| - |b|, true) == Last(Held(b, head, full) + p, |b|)
  {
    var b1, room, n := Wrapped(b, head, p), |b| - head, |p|;
    var a, m, e, p1, p2 := b[..n - room], b[n - room..head], b[head..], p[..room], p[room..];
    assert b == a + m + e && b[..head] == a + m && p == p1 + p2;
    WrapPieces(a, m, e, p1, p2, full);
    WrappedPieces(b, head, p);
  }

  lemma HeldPieces(x: seq<byte>, m: seq<byte>, y: seq<byte>)
    ensures Held(x + m + y, |x|, true) == m + (y + x)
  {
    Assoc(x, m, y);
    assert (x + (m + y))[|x|..] == m + y && (x + (m + y))[..|x|] == x;
    Assoc(m, y, x);
  }

  lemma WrappedPieces(b: seq<byte>, head: nat, p: seq<byte>)
    requires head < |b| <= head + |p| && |p| < |b|
    ensures var room := |b| - head;
            Held(Wrapped(b, head, p), |p| - room, true) == b[|p| - room..head] + (p[..room] + p[room..])
  {
    var room := |b| - head;
    if |p| == room {
      assert b[head + |p|..] == [] && p[..room] == p && p[room..] == [];
      EmptyEnds(p);
      EmptyEnds(b[..head] + p);
      HeldFromStart(b[..head] + p);
    } else {
      HeldPieces(p[room..], b[|p| - room..head], p[..room]);
    }
  }

  lemma Modulus(x: nat, cap: nat)
    requires 0 < cap && x < 2 * cap
    ensures x % cap == if x < cap then x else x - cap
  {
    if x >= cap {
      assert x / cap == 1;
    }
  }

  /** The program's new head and its new flag are right in both cases. */
  lemma WriteHolds(b: seq<byte>, head: nat, full: bool, p: seq<byte>)
    requires head < |b| && |p| < |b|
    ensures var head1 := (head + |p|) % |b|;
            var full1 := full || head1 < |p|;
            && head1 < |b| && (full1 <==> full || head + |p| >= |b|)
            && Held(Wrapped(b, head, p), head1, full1) == Last(Held(b, head, full) + p, |b|)
  {
    Modulus(head + |p|, |b|);
    WriteHoldsAt(b, head, full, p, (head + |p|) % |b|);
  }

  lemma WriteHoldsAt(b: seq<byte>, head: nat, full: bool, p: seq<byte>, head1: nat)
    requires head < |b| && |p| < |b|
    requires head1 == if head + |p| < |b| then head + |p| else head + |p| - |b|
    ensures var full1 := full || head1 < |p|;
            && (full1 <==> full || head + |p| >= |b|)
            && Held(Wrapped(b, head, p), head1, full1) == Last(Held(b, head, full) + p, |b|)
  {
    if head + |p| < |b| {
      WriteNoWrap(b, head, full, p);
    } else {
      WriteWrap(b, head, full, p);
    }
  }

  lemma LongTail(s: seq<byte>, p: seq<byte>, cap: nat)
    requires |p| >= cap
    ensures Last(s + p, cap) == p[|p| - cap..]
  {
    assert s + p == s + p[..|p| - cap] + p[|p| - cap..];
    TailOf(s + p[..|p| - cap], p[|p| - cap..]);
  }

  lemma HeldFromStart(b: seq<byte>)
    ensures Held(b, 0, true) == b
  {
    assert b[0..] + b[..0] == b;
  }

  class RingBuffer {
    var buf: array<byte>
    var head: nat
    var full: bool
    ghost var written: seq<byte> // every byte ever written

    ghost predicate Valid()
      reads this, buf
    {
      && head < buf.Length
      && (full <==> |written| >= buf.Length)
      && Held(buf[..], head, full) == Last(written, buf.Length)
    }

    constructor (capacity: nat)
      ensures Valid() && fresh(buf) && written == []
      ensures buf.Length == if capacity == 0 then 4096 else capacity
    {
      buf := new byte[if capacity == 0 then DEFAULT_CAPACITY else capacity](_ => 0);
      head := 0;
      full := false;
      written := [];
    }

    /** Exactly the last min(cap, total) bytes ever written, in order. */
    method Snapshot() returns (out: seq<byte>)
      requires Valid()
      ensures out == Last(written, buf.Length)
      ensures full <==> |written| >= buf.Length
    {
      if !full {
        assert buf[..head] == Held(buf[..], head, full);
        return buf[..head];
      }
      assert buf[head..] + buf[..head] == Held(buf[..], head, full);
      return buf[head..] + buf[..head];
    }

    /** copy_from_slice into buf[at..at + |src|] */
    method CopyIn(at: nat, src: seq<byte>)
      requires at + |src| <= buf.Length
      modifies buf
      ensures buf[..] == old(buf[..at]) + src + old(buf[at + |src|..])
    {
      forall i | 0 <= i < |src| {
        buf[at + i] := src[i];
      }
      assert buf[..] == old(buf[..at]) + src + old(buf[at + |src|..]);
    }

    method Write(p: seq<byte>) returns (n: nat)
      requires Valid()
      modifies this, buf
      ensures Valid() && buf == old(buf) && n == |p|
      ensures written == old(written) + p
    {
      n := |p|;
      if n == 0 {
        assert written + p == written;
        return;
      }
      if n >= buf.Length {
        Replace(p);
      } else {
        Append(p);
      }
    }

    /** A write as long as the buffer, or longer: only its tail stays. */
    method Replace(p: seq<byte>)
      requires Valid() && |p| >= buf.Length
      modifies `head, `full, `written, buf
      ensures Valid() && written == old(written) + p
    {
      var cap := buf.Length;
      CopyIn(0, p[|p| - cap..]);
      head := 0;
      full := true;
      assert buf[..] == p[|p| - cap..];
      LongTail(written, p, cap);
      HeldFromStart(buf[..]);
      written := written + p;
    }

    /** A shorter write, after the bytes held and over the oldest ones. */
    method Append(p: seq<byte>)
      requires Valid() && |p| < buf.Length
      modifies `head, `full, `written, buf
      ensures Valid() && written == old(written) + p
    {
      var cap := buf.Length;
      LastAppend(written, p, cap);
      WriteHolds(buf[..], head, full, p);
      WriteAtHead(p);
      head := (head + |p|) % cap;
      if !full && head < |p| {
        full := true;
      }
      written := written + p;
    }

    /** The two copies: up to the end of the buffer, then from its start. */
    method WriteAtHead(p: seq<byte>)
      requires head < buf.Length && |p| < buf.Length
      modifies buf
      ensures buf[..] == Wrapped(old(buf[..]), head, p)
    {
      ghost var b := buf[..];
      var room := buf.Length - head;
      var written := if |p| < room then |p| else room;
      CopyIn(head, p[..written]);
      if written < |p| {
        assert buf[..] == b[..head] + p[..room];
        CopyIn(0, p[written..]);
      }
      assert buf[..] == Wrapped(b, head, p);
    }
  }

  /** Any number of writes of any lengths, then a snapshot: the tail of the concatenation. */
  method WriteAll(capacity: nat, chunks: seq<seq<byte>>) returns (out: seq<byte>)
    ensures out == Last(Flatten(chunks), if capacity == 0 then 4096 else capacity)
  {
    var ring := new RingBuffer(capacity);
    for k := 0 to |chunks|
      invariant ring.Valid() && fresh(ring) && fresh(ring.buf)
      invariant ring.buf.Length == if capacity == 0 then 4096 else capacity
      invariant ring.written == Flatten(chunks[..k])
    {
      var _ := ring.Write(chunks[k]);
      assert chunks[..k + 1] == chunks[..k] + [chunks[k]];
      FlattenConcat(chunks[..k], [chunks[k]]);
    }
    assert chunks[..|chunks|] == chunks;
    out := ring.Snapshot();
  }
}
