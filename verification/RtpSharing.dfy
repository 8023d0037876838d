/** One sender among several on a track: whose sends the accepted ones are, and what the others'
    sends do to its timestamps. */
module RtpSharing {
  import opened Media
  import opened VideoTiming
  import opened RtpTransport
  import opened RtpNumbering

  predicate Increasing(at: seq<nat>) {
    forall i, j :: 0 <= i < j < |at| ==> at[i] < at[j]
  }

  /** Some of the positions below n, in order. */
  predicate Positions(at: seq<nat>, n: nat) {
    Increasing(at) && forall k :: 0 <= k < |at| ==> at[k] < n
  }

  /** All of them. */
  predicate Everyone(at: seq<nat>, n: nat) {
    |at| == n && forall k :: 0 <= k < n ==> at[k] == k
  }

  /** The elements at some positions. */
  function Picked<T>(xs: seq<T>, at: seq<nat>): (r: seq<T>)
    requires forall j :: 0 <= j < |at| ==> at[j] < |xs|
    ensures |r| == |at| && forall j :: 0 <= j < |r| ==> r[j] == xs[at[j]]
  {
    seq(|at|, j requires 0 <= j < |at| => xs[at[j]])
  }

  lemma PickedAll<T>(xs: seq<T>, at: seq<nat>)
    requires |at| <= |xs| && forall j :: 0 <= j < |at| ==> at[j] == j
    ensures Picked(xs, at) == xs[..|at|]
  {
  }

  /** Clock ticks of the first p calls that are not at the positions `mine`. */
  function OthersTicks(cs: seq<Call>, mine: seq<nat>, p: nat): nat
    requires p <= |cs|
  {
    if p == 0 then 0 else OthersTicks(cs, mine, p - 1) + if p - 1 in mine then 0 else cs[p - 1].ticks
  }

  /** Of the first p calls the first k of `mine` are the sender's own. */
  predicate Own(mine: seq<nat>, p: nat, k: nat) {
    k <= |mine| && (k > 0 ==> mine[k - 1] < p) && (k < |mine| ==> p <= mine[k])
  }

  lemma OwnStep(mine: seq<nat>, p: nat, k: nat)
    requires Increasing(mine) && p > 0 && Own(mine, p, k)
    ensures p - 1 in mine <==> k > 0 && mine[k - 1] == p - 1
    ensures Own(mine, p - 1, if p - 1 in mine then k - 1 else k)
  {
  }

  /** The clock before call p: the sender's own ticks and the others'. */
  lemma {:induction false} TicksSplit(cs: seq<Call>, mine: seq<nat>, p: nat, k: nat)
    requires Positions(mine, |cs|) && p <= |cs| && Own(mine, p, k)
    ensures TicksAll(cs[..p]) == TicksAll(Picked(cs, mine)[..k]) + OthersTicks(cs, mine, p)
  {
    if p > 0 {
      assert cs[..p][..p - 1] == cs[..p - 1];
      OwnStep(mine, p, k);
      if p - 1 in mine {
        assert Picked(cs, mine)[..k][..k - 1] == Picked(cs, mine)[..k - 1];
        TicksSplit(cs, mine, p - 1, k - 1);
      } else {
        TicksSplit(cs, mine, p - 1, k);
      }
    }
  }

  lemma {:induction false} AloneOthers(cs: seq<Call>, mine: seq<nat>, p: nat)
    requires Everyone(mine, |cs|) && p <= |cs|
    ensures OthersTicks(cs, mine, p) == 0
  {
    if p > 0 {
      assert mine[p - 1] == p - 1;
      AloneOthers(cs, mine, p - 1);
    }
  }

  /** A timestamp is the sender's own running sum exactly when the others' ticks before it are
      whole turns of the 32-bit clock. */
  predicate ShiftedBy(ts: u32, ts0: u32, own: nat, others: nat) {
    ts == Stamp(ts0, own + others) && (ts == Stamp(ts0, own) <==> others % TWO32 == 0)
  }

  lemma OwnTimeIff(ts0: u32, total: nat, own: nat, others: nat)
    requires total == own + others
    ensures ShiftedBy(Stamp(ts0, total), ts0, own, others)
  {
  }

  // ----- The keepalive frames of wrtc/keepalive.rs -----

  const KEEPALIVE_NANOS: nat := 66_000_000

  function OthersCount(mine: seq<nat>, p: nat): nat {
    if p == 0 then 0 else OthersCount(mine, p - 1) + if p - 1 in mine then 0 else 1
  }

  /** Where the others are keepalive frames, each pushes the video clock 5940 ticks on. */
  lemma {:induction false} KeepalivesShift(cs: seq<Call>, mine: seq<nat>, p: nat)
    requires p <= |cs| && forall i :: 0 <= i < p && i !in mine ==> cs[i].ticks == VideoTicks(KEEPALIVE_NANOS)
    ensures OthersTicks(cs, mine, p) == 5_940 * OthersCount(mine, p)
  {
    if p > 0 {
      KeepalivesShift(cs, mine, p - 1);
    }
  }
}
