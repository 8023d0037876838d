/** SSRC allocation (wrtc/native/factory.rs): a wrapping counter that skips zero, and the
    allocation pattern of a stack, whose video SSRC v is announced with the partner v + 1. */
module SsrcFactory {
  import opened Media

  // ----- The counter as a function of how often it was fetched -----

  /** What the n-th fetch_add returns, counting from 0. */
  function Fetched(seed: u32, n: nat): u32 {
    (seed + n) % TWO32
  }

  /** The u32 after x, skipping zero. */
  function Following(x: u32): u32 {
    if x == TWO32 - 1 then 1 else x + 1
  }

  /** The value a counter at x hands out next. */
  function Handed(x: u32): u32 {
    if x == 0 then 1 else x
  }

  /** What the k-th allocation returns when the counter stands at x. */
  function Nth(x: u32, k: nat): (v: u32)
    ensures v != 0
  {
    if k == 0 then Handed(x) else Following(Nth(x, k - 1))
  }

  class Factory {
    var ssrcCounter: u32
    ghost var issued: seq<u32> // every value returned
    ghost var seed: u32        // the counter at the start

    ghost predicate Valid()
      reads this
    {
      && seed != 0 && Handed(ssrcCounter) == Nth(seed, |issued|)
      && forall i :: 0 <= i < |issued| ==> issued[i] == Nth(seed, i)
    }

    /** The random seed is made odd, so it is never zero. */
    constructor (random: u32)
      ensures Valid() && issued == [] && ssrcCounter == seed
      ensures seed == if random % 2 == 0 then random + 1 else random
    {
      ssrcCounter := if random % 2 == 0 then random + 1 else random;
      seed := if random % 2 == 0 then random + 1 else random;
      issued := [];
    }

    method FetchAdd() returns (v: u32)
      modifies `ssrcCounter
      ensures v == old(ssrcCounter) && ssrcCounter == (old(ssrcCounter) + 1) % TWO32
    {
      v := ssrcCounter;
      ssrcCounter := (ssrcCounter + 1) % TWO32;
    }

    /** Loops until the fetched value is not zero: at most twice. */
    method AllocateSsrc() returns (v: u32)
      requires Valid()
      modifies this
      ensures Valid() && seed == old(seed)
      ensures v == Nth(seed, |old(issued)|) && issued == old(issued) + [v]
      ensures ssrcCounter == (old(ssrcCounter) + if old(ssrcCounter) == 0 then 2 else 1) % TWO32
    {
      ghost var turns := 0;
      while true
        invariant turns <= 1 && issued == old(issued) && seed == old(seed)
        invariant Handed(ssrcCounter) == Handed(old(ssrcCounter))
        invariant turns == 1 ==> ssrcCounter == 1 && old(ssrcCounter) == 0
        invariant turns == 0 ==> ssrcCounter == old(ssrcCounter)
        decreases 2 - turns
      {
        v := FetchAdd();
        turns := turns + 1;
        if v != 0 {
          assert Handed(ssrcCounter) == Following(v);
          issued := issued + [v];
          return v;
        }
      }
    }

    /** The allocations of new_stack, with no other caller in between. */
    method NewStack(withVideo: bool) returns (s: Stack)
      requires Valid()
      modifies this
      ensures Valid() && seed == old(seed)
      ensures |issued| == |old(issued)| + Slots(withVideo) && old(issued) <= issued
      ensures s == StackAt(seed, |old(issued)|, withVideo)
      ensures s.audio == issued[|old(issued)|] && s.video == if withVideo then issued[|old(issued)| + 1] else 0
    {
      var audio := AllocateSsrc();
      var video := 0;
      if withVideo {
        video := AllocateSsrc();
        var _ := AllocateSsrc();
      }
      s := Stack(audio, video);
    }
  }

  /** `video` is 0 for a stack without video. */
  datatype Stack = Stack(audio: u32, video: u32)

  function Slots(withVideo: bool): nat {
    if withVideo then 3 else 1
  }

  function StackAt(seed: u32, k: nat, withVideo: bool): Stack {
    Stack(Nth(seed, k), if withVideo then Nth(seed, k + 1) else 0)
  }

  /** The second member of the announced FID group: v.wrapping_add(1). */
  function Partner(v: u32): u32 {
    (v + 1) % TWO32
  }

  // ----- Distinctness -----

  /** On 1 .. 2^32 - 1 the allocations walk round a circle of 2^32 - 1 places. */
  lemma {:induction false} NthClosed(x: u32, k: nat)
    ensures Nth(x, k) == 1 + (Handed(x) - 1 + k) % (TWO32 - 1)
  {
    if k > 0 {
      NthClosed(x, k - 1);
      StepRound(Handed(x) - 1 + k - 1);
    }
  }

  lemma StepRound(a: nat)
    ensures (a + 1) % (TWO32 - 1) == if a % (TWO32 - 1) == TWO32 - 2 then 0 else a % (TWO32 - 1) + 1
  {
  }

  lemma SamePlace(a: nat, b: nat)
    requires a <= b && b - a < TWO32 - 1
    ensures a % (TWO32 - 1) == b % (TWO32 - 1) <==> a == b
  {
  }

  /** Any 2^32 - 1 allocations in a row, across the wrap-around, are pairwise different; one
      more repeats. */
  lemma AllocationsDistinct(seed: u32, i: nat, j: nat)
    requires i < j
    ensures j - i < TWO32 - 1 ==> Nth(seed, i) != Nth(seed, j)
    ensures j - i == TWO32 - 1 ==> Nth(seed, i) == Nth(seed, j)
  {
    NthClosed(seed, i);
    NthClosed(seed, j);
    var a := Handed(seed) - 1;
    if j - i < TWO32 - 1 {
      SamePlace(a + i, a + j);
    }
  }

  /** Concurrent callers draw from the same fetch_adds: those that are not zero are pairwise
      different, whoever made them. */
  lemma FetchesDistinct(seed: u32, m: nat, n: nat)
    requires m < n && n - m < TWO32
    ensures Fetched(seed, m) != Fetched(seed, n)
  {
  }

  // ----- The partner of a video SSRC, in sequential runs -----

  /** Where each stack of a run starts. */
  function Offset(videos: seq<bool>, s: nat): nat
    requires s <= |videos|
  {
    if s == 0 then 0 else Offset(videos, s - 1) + Slots(videos[s - 1])
  }

  lemma {:induction false} OffsetsGrow(videos: seq<bool>, s: nat, r: nat)
    requires s < r <= |videos|
    ensures Offset(videos, s) + Slots(videos[s]) <= Offset(videos, r)
    decreases r
  {
    if s < r - 1 {
      OffsetsGrow(videos, s, r - 1);
    }
  }

  function StackOf(seed: u32, videos: seq<bool>, s: nat): Stack
    requires s < |videos|
  {
    StackAt(seed, Offset(videos, s), videos[s])
  }

  /** The slot after a video SSRC holds its partner, except at the top of the range, where the
      announced partner is zero and the slot holds 1. */
  lemma ReservedSlot(seed: u32, k: nat)
    ensures Nth(seed, k) != TWO32 - 1 ==> Nth(seed, k + 1) == Partner(Nth(seed, k))
    ensures Nth(seed, k) == TWO32 - 1 ==> Nth(seed, k + 1) == 1 && Partner(Nth(seed, k)) == 0
  {
  }

  /** The two SSRCs of one stack and the announced partner are three different numbers, at the
      wrap-around too. */
  lemma OwnNumbersDiffer(seed: u32, k: nat)
    ensures var own := StackAt(seed, k, true);
            own.audio != own.video && Partner(own.video) != own.audio && Partner(own.video) != own.video
  {
    assert Nth(seed, k + 1) == Following(Nth(seed, k));
  }

  /** In a sequential run of up to 2^32 - 1 allocations no SSRC is given out twice and the
      partner of a video SSRC is never another stack's audio or video SSRC. */
  lemma PartnerReserved(seed: u32, videos: seq<bool>, s: nat, r: nat)
    requires s < |videos| && r < |videos| && s != r && Offset(videos, |videos|) < TWO32
    ensures var a, b := StackOf(seed, videos, s), StackOf(seed, videos, r);
            && a.audio != b.audio && (videos[r] ==> a.audio != b.video)
            && (videos[s] && videos[r] ==> a.video != b.video)
            && (videos[s] ==> b.audio != Partner(a.video) && (videos[r] ==> b.video != Partner(a.video)))
  {
    var i, j := Offset(videos, s), Offset(videos, r);
    if s < r {
      OffsetsGrow(videos, s, r);
    } else {
      OffsetsGrow(videos, r, s);
    }
    OffsetsGrow(videos, s, |videos|);
    OffsetsGrow(videos, r, |videos|);
    ReservedSlot(seed, i + 1);
    SlotsDiffer(seed, i, i + Slots(videos[s]), j, j + Slots(videos[r]));
    assert videos[s] ==> Nth(seed, i + 2) != Nth(seed, j);
    assert videos[s] && videos[r] ==> Nth(seed, i + 2) != Nth(seed, j + 1) && Nth(seed, i + 1) != Nth(seed, j + 1);
  }

  lemma SlotsDiffer(seed: u32, i: nat, i1: nat, j: nat, j1: nat)
    requires i1 <= j || j1 <= i
    requires i <= i1 < TWO32 && j <= j1 < TWO32
    ensures forall m, n :: i <= m < i1 && j <= n < j1 ==> Nth(seed, m) != Nth(seed, n)
  {
    forall m, n | i <= m < i1 && j <= n < j1
      ensures Nth(seed, m) != Nth(seed, n)
    {
      if m < n {
        AllocationsDistinct(seed, m, n);
      } else {
        AllocationsDistinct(seed, n, m);
      }
    }
  }

  /** Two stacks made at once need not respect this: with the calls interleaved, the audio SSRC
      of the second can be the partner announced by the first. A run of draws by two callers,
      each the audio, video and partner allocations of its stack, in any order. */
  ghost predicate Interleaving(order: seq<bool>) {
    |order| == 6 && multiset(order) == multiset{true, true, true, false, false, false}
  }

  /** The position of a caller's k-th draw. */
  function Position(order: seq<bool>, caller: bool, k: nat): nat
  {
    if order == [] then 0
    else if order[0] == caller then (if k == 0 then 0 else 1 + Position(order[1..], caller, k - 1))
    else 1 + Position(order[1..], caller, k)
  }

  function Draws(order: seq<bool>, caller: bool): nat {
    if order == [] then 0 else (if order[0] == caller then 1 else 0) + Draws(order[1..], caller)
  }

  lemma {:induction false} DrawsCounted(order: seq<bool>, caller: bool)
    ensures Draws(order, caller) == multiset(order)[caller]
    decreases |order|
  {
    if order != [] {
      assert order == [order[0]] + order[1..];
      DrawsCounted(order[1..], caller);
    }
  }

  /** It is a draw of that caller's, with k of them before it. */
  lemma {:induction false} PositionIsDraw(order: seq<bool>, caller: bool, k: nat)
    requires k < Draws(order, caller)
    ensures var p := Position(order, caller, k);
            p < |order| && order[p] == caller && Draws(order[..p], caller) == k
    decreases |order|
  {
    var p := Position(order, caller, k);
    if order[0] != caller {
      PositionIsDraw(order[1..], caller, k);
      assert order[..p][1..] == order[1..][..p - 1];
    } else if k > 0 {
      PositionIsDraw(order[1..], caller, k - 1);
      assert order[..p][1..] == order[1..][..p - 1];
    }
  }

  /** What a caller's k-th draw returned, after `base` earlier allocations. */
  function Drawn(seed: u32, base: nat, order: seq<bool>, caller: bool, k: nat): u32 {
    Nth(seed, base + Position(order, caller, k))
  }

  lemma ConcurrentPartnerCollides(seed: u32)
    requires 0 < seed < TWO32 - 6
    ensures exists order :: Interleaving(order)
              && Nth(seed, Position(order, false, 0)) == Partner(Nth(seed, Position(order, true, 1)))
  {
    var order := [true, true, false, true, false, false];
    assert Interleaving(order);
    assert order[1..] == [true, false, true, false, false];
    assert order[1..][1..] == [false, true, false, false];
    assert Position(order[1..][1..], false, 0) == 0;
    assert Position(order[1..], false, 0) == 1 && Position(order[1..], true, 0) == 0;
    assert Position(order, false, 0) == 2 && Position(order, true, 1) == 1;
    assert Nth(seed, 1) == Following(Nth(seed, 0)) && Nth(seed, 2) == Following(Nth(seed, 1));
  }

  /** Two draws near each other: one returns the partner of the other exactly when it comes next. */
  lemma PartnerComesNext(seed: u32, v: nat, other: nat)
    requires v != other && -TWO32 + 2 < other - v < TWO32 - 1
    ensures Nth(seed, other) == Partner(Nth(seed, v)) <==> Nth(seed, v) != TWO32 - 1 && other == v + 1
  {
    ReservedSlot(seed, v);
    if other < v + 1 {
      AllocationsDistinct(seed, other, v + 1);
    } else if v + 1 < other {
      AllocationsDistinct(seed, v + 1, other);
    }
  }

  lemma DrawComesNext(seed: u32, base: nat, order: seq<bool>, caller: bool, k: nat)
    requires k < Draws(order, !caller) && 1 < Draws(order, caller) && |order| < 100
    ensures Drawn(seed, base, order, !caller, k) == Partner(Drawn(seed, base, order, caller, 1))
            <==> Drawn(seed, base, order, caller, 1) != TWO32 - 1
                 && Position(order, !caller, k) == Position(order, caller, 1) + 1
  {
    PositionIsDraw(order, caller, 1);
    PositionIsDraw(order, !caller, k);
    PartnerComesNext(seed, base + Position(order, caller, 1), base + Position(order, !caller, k));
  }

  /** For every interleaving of two stacks, whatever was allocated before: the partner announced by
      one is the other's audio or video SSRC exactly when the draw right after the one's video draw
      is the other's first or second. The other's third draw, thrown away, does no harm there, and
      neither does the top of the range, where the announced partner is zero. */
  lemma PartnerTakenIff(seed: u32, base: nat, order: seq<bool>, caller: bool)
    requires Interleaving(order)
    ensures var v, next := Drawn(seed, base, order, caller, 1), Position(order, caller, 1) + 1;
            && (Drawn(seed, base, order, !caller, 0) == Partner(v) || Drawn(seed, base, order, !caller, 1) == Partner(v)
                <==> v != TWO32 - 1 && next < |order| && order[next] == !caller && Draws(order[..next], !caller) < 2)
  {
    DrawsCounted(order, caller);
    DrawsCounted(order, !caller);
    DrawComesNext(seed, base, order, caller, 0);
    DrawComesNext(seed, base, order, caller, 1);
    PositionIsDraw(order, !caller, 0);
    PositionIsDraw(order, !caller, 1);
    var next := Position(order, caller, 1) + 1;
    if next < |order| && order[next] == !caller {
      DrawAtPosition(order, !caller, next);
    }
  }

  /** Every draw of a caller's is the one its count says. */
  lemma {:induction false} DrawAtPosition(order: seq<bool>, caller: bool, p: nat)
    requires p < |order| && order[p] == caller
    ensures Position(order, caller, Draws(order[..p], caller)) == p
    decreases |order|
  {
    if p > 0 {
      assert order[..p][1..] == order[1..][..p - 1];
      DrawAtPosition(order[1..], caller, p - 1);
    }
  }
}
