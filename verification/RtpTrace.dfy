/** What any history of sends, resets, connects, closes and reports leaves on the wire. */
module RtpTrace {
  import opened Media
  import opened OpusTiming
  import opened VideoTiming
  import opened RtpTransport

  function After(t: Tx, ops: seq<Op>): Tx {
    if ops == [] then t else Step(After(t, ops[..|ops| - 1]), ops[|ops| - 1]).0
  }

  function Wire(t: Tx, ops: seq<Op>): seq<Packet> {
    if ops == [] then []
    else Wire(t, ops[..|ops| - 1]) + Step(After(t, ops[..|ops| - 1]), ops[|ops| - 1]).1
  }

  /** The media packets of one track, in order. */
  function RtpOf(track: Track, wire: seq<Packet>): (ps: seq<Packet>)
    ensures forall i :: 0 <= i < |ps| ==> ps[i].Rtp? && ps[i].track == track
  {
    if wire == [] then []
    else
      var last := wire[|wire| - 1];
      RtpOf(track, wire[..|wire| - 1]) + if last.Rtp? && last.track == track then [last] else []
  }

  function Octets(ps: seq<Packet>): nat
    requires forall i :: 0 <= i < |ps| ==> ps[i].Rtp?
  {
    if ps == [] then 0 else Octets(ps[..|ps| - 1]) + |ps[|ps| - 1].payload|
  }

  lemma {:induction false} RtpOfConcat(track: Track, a: seq<Packet>, b: seq<Packet>)
    ensures RtpOf(track, a + b) == RtpOf(track, a) + RtpOf(track, b)
  {
    if b == [] {
      assert a + b == a;
    } else {
      assert (a + b)[..|a + b| - 1] == a + b[..|b| - 1];
      RtpOfConcat(track, a, b[..|b| - 1]);
    }
  }

  lemma {:induction false} OctetsConcat(a: seq<Packet>, b: seq<Packet>)
    requires forall i :: 0 <= i < |a + b| ==> (a + b)[i].Rtp?
    requires forall i :: 0 <= i < |a| ==> a[i].Rtp?
    requires forall i :: 0 <= i < |b| ==> b[i].Rtp?
    ensures Octets(a + b) == Octets(a) + Octets(b)
  {
    if b == [] {
      assert a + b == a;
    } else {
      assert (a + b)[..|a + b| - 1] == a + b[..|b| - 1];
      OctetsConcat(a, b[..|b| - 1]);
    }
  }

  lemma {:induction false} RtpOfAll(track: Track, ps: seq<Packet>)
    requires forall i :: 0 <= i < |ps| ==> ps[i].Rtp?
    ensures (forall i :: 0 <= i < |ps| ==> ps[i].track == track) ==> RtpOf(track, ps) == ps
    ensures (forall i :: 0 <= i < |ps| ==> ps[i].track != track) ==> RtpOf(track, ps) == []
  {
    if ps != [] {
      var front, last := ps[..|ps| - 1], ps[|ps| - 1];
      RtpOfAll(track, front);
      assert ps == front + [last];
      assert forall i :: 0 <= i < |front| ==> front[i] == ps[i];
    }
  }

  lemma {:induction false} ReportsAreNoMedia(track: Track, ps: seq<Packet>)
    requires forall i :: 0 <= i < |ps| ==> ps[i].SenderReport?
    ensures RtpOf(track, ps) == []
  {
    if ps != [] {
      ReportsAreNoMedia(track, ps[..|ps| - 1]);
    }
  }

  lemma ReportsCarryNoMedia(track: Track, t: Tx, ntp: nat, sealed: Sealed)
    ensures RtpOf(track, Reports(t, ntp, sealed)) == []
    ensures RtpOf(track, StartEpoch(t, ntp, sealed).1) == []
  {
    ReportsAreNoMedia(track, Reports(t, ntp, sealed));
    ReportsAreNoMedia(track, StartEpoch(t, ntp, sealed).1);
  }

  predicate IsSend(op: Op) {
    op.SendAudio? || op.SendVideo?
  }

  predicate Feeds(op: Op, track: Track) {
    (op.SendAudio? && track == Audio) || (op.SendVideo? && track == Video)
  }

  /** The media packets an operation sends on a track. */
  function Sent(track: Track, t: Tx, op: Op): seq<Packet> {
    if t.closed || !Feeds(op, track) then [] else Transmit(t, op).1
  }

  lemma TransmitFeeds(track: Track, t: Tx, op: Op)
    requires IsSend(op)
    ensures RtpOf(track, Transmit(t, op).1) == if Feeds(op, track) then Transmit(t, op).1 else []
  {
    RtpOfAll(track, Transmit(t, op).1);
  }

  lemma SentBy(track: Track, t: Tx, op: Op)
    ensures RtpOf(track, Step(t, op).1) == Sent(track, t, op)
  {
    if IsSend(op) && !t.closed {
      var (t1, reports) := StartEpoch(t, op.ntp, op.sealed);
      var sent := Transmit(t1, op).1;
      assert sent == Transmit(t, op).1;
      RtpOfConcat(track, reports, sent);
      ReportsCarryNoMedia(track, t, op.ntp, op.sealed);
      TransmitFeeds(track, t, op);
      assert [] + RtpOf(track, sent) == RtpOf(track, sent);
    } else if op.Report? {
      ReportsCarryNoMedia(track, t, op.ntp, op.sealed);
    }
  }

  /** What is left of the wire on one track after one more operation. */
  lemma RtpOfStep(track: Track, wire: seq<Packet>, t: Tx, op: Op)
    ensures RtpOf(track, wire + Step(t, op).1) == RtpOf(track, wire) + Sent(track, t, op)
  {
    RtpOfConcat(track, wire, Step(t, op).1);
    SentBy(track, t, op);
  }

  // ----- RTCP counters -----

  ghost predicate CountersAgree(s: Sender, ps: seq<Packet>)
    requires forall i :: 0 <= i < |ps| ==> ps[i].Rtp?
  {
    s.packets == |ps| % TWO32 && s.octets == Octets(ps) % TWO32
  }

  /** A report states how much of its track was handed to the socket before it. */
  ghost predicate States(report: Packet, ps: seq<Packet>)
    requires report.SenderReport? && forall i :: 0 <= i < |ps| ==> ps[i].Rtp?
  {
    report.packets == |ps| % TWO32 && report.octets == Octets(ps) % TWO32
  }

  ghost predicate ReportHonest(wire: seq<Packet>, i: nat)
    requires i < |wire| && wire[i].SenderReport?
  {
    States(wire[i], RtpOf(wire[i].track, wire[..i]))
  }

  ghost predicate ReportsHonest(wire: seq<Packet>) {
    forall i :: 0 <= i < |wire| && wire[i].SenderReport? ==> ReportHonest(wire, i)
  }

  ghost predicate TracksAgree(t: Tx, wire: seq<Packet>) {
    CountersAgree(t.audio, RtpOf(Audio, wire)) && CountersAgree(t.video, RtpOf(Video, wire))
  }

  lemma ModAdd(a: nat, b: nat, x: u32)
    requires x == a % TWO32
    ensures (x + b % TWO32) % TWO32 == (a + b) % TWO32
    ensures (x + b) % TWO32 == (a + b) % TWO32
  {
  }

  lemma CountOne(s: Sender, ps: seq<Packet>, p: Packet)
    requires (forall i :: 0 <= i < |ps| ==> ps[i].Rtp?) && p.Rtp?
    requires CountersAgree(s, ps)
    ensures CountersAgree(Count(s, |p.payload|), ps + [p])
  {
    assert (ps + [p])[..|ps|] == ps;
    ModAdd(|ps|, 1, s.packets);
    ModAdd(Octets(ps), |p.payload|, s.octets);
  }

  lemma {:induction false} CountMany(s: Sender, ps: seq<Packet>, frame: seq<Packet>, chunks: seq<seq<byte>>)
    requires forall i :: 0 <= i < |ps| ==> ps[i].Rtp?
    requires |frame| == |chunks| && forall i :: 0 <= i < |frame| ==> frame[i].Rtp? && frame[i].payload == chunks[i]
    requires CountersAgree(s, ps)
    ensures CountersAgree(CountAll(s, chunks), ps + frame)
    decreases |chunks|
  {
    if chunks == [] {
      assert ps + frame == ps;
    } else {
      var n := |chunks| - 1;
      CountMany(s, ps, frame[..n], chunks[..n]);
      CountOne(CountAll(s, chunks[..n]), ps + frame[..n], frame[n]);
      assert ps + frame[..n] + [frame[n]] == ps + frame;
    }
  }

  lemma CountersAudio(t: Tx, op: Op, ps: seq<Packet>)
    requires (forall i :: 0 <= i < |ps| ==> ps[i].Rtp?) && CountersAgree(t.audio, ps)
    ensures (forall i :: 0 <= i < |ps + Sent(Audio, t, op)| ==> (ps + Sent(Audio, t, op))[i].Rtp?)
    ensures CountersAgree(Step(t, op).0.audio, ps + Sent(Audio, t, op))
  {
    assert ps + [] == ps;
    var sent := Sent(Audio, t, op);
    if sent != [] {
      CountOne(Advance(t.audio, 1, AudioTicks(op.nanos)), ps, sent[0]);
    }
  }

  lemma CountersVideo(t: Tx, op: Op, ps: seq<Packet>)
    requires (forall i :: 0 <= i < |ps| ==> ps[i].Rtp?) && CountersAgree(t.video, ps)
    ensures (forall i :: 0 <= i < |ps + Sent(Video, t, op)| ==> (ps + Sent(Video, t, op))[i].Rtp?)
    ensures CountersAgree(Step(t, op).0.video, ps + Sent(Video, t, op))
  {
    assert ps + [] == ps;
    var sent := Sent(Video, t, op);
    if sent != [] {
      var cs := op.chunks.value;
      CountMany(Advance(t.video, |cs|, VideoTicks(op.nanos)), ps, sent, cs);
    }
  }

  /** Advancing numbers never touches the counters; only a packet on the wire does. */
  lemma CountersStep(t: Tx, op: Op, wire: seq<Packet>)
    requires TracksAgree(t, wire)
    ensures TracksAgree(Step(t, op).0, wire + Step(t, op).1)
  {
    RtpOfStep(Audio, wire, t, op);
    RtpOfStep(Video, wire, t, op);
    CountersAudio(t, op, RtpOf(Audio, wire));
    CountersVideo(t, op, RtpOf(Video, wire));
  }

  lemma OldReportHonest(wire: seq<Packet>, sent: seq<Packet>, i: nat)
    requires i < |wire| && wire[i].SenderReport? && ReportHonest(wire, i)
    ensures ReportHonest(wire + sent, i)
  {
    assert (wire + sent)[..i] == wire[..i];
  }

  /** What is on the wire of a track before a report that comes first in its operation. */
  lemma ReportSees(track: Track, wire: seq<Packet>, sent: seq<Packet>, k: nat)
    requires k <= |sent| && RtpOf(track, sent[..k]) == []
    ensures RtpOf(track, (wire + sent)[..|wire| + k]) == RtpOf(track, wire)
  {
    PrefixOfSum(wire, sent, k);
    RtpOfConcat(track, wire, sent[..k]);
    EmptyEnds(RtpOf(track, wire));
  }

  /** Nothing of its track comes before the report, and it shows the counters of `t`. */
  ghost predicate Leads(t: Tx, sent: seq<Packet>, k: nat)
    requires k < |sent| && sent[k].SenderReport?
  {
    var p := sent[k];
    var s := if p.track == Audio then t.audio else t.video;
    RtpOf(p.track, sent[..k]) == [] && p.packets == s.packets && p.octets == s.octets
  }

  lemma NewReportHonest(t: Tx, wire: seq<Packet>, sent: seq<Packet>, k: nat)
    requires TracksAgree(t, wire) && k < |sent| && sent[k].SenderReport? && Leads(t, sent, k)
    ensures ReportHonest(wire + sent, |wire| + k)
  {
    ReportSees(sent[k].track, wire, sent, k);
    assert States(sent[k], RtpOf(sent[k].track, wire));
    assert (wire + sent)[|wire| + k] == sent[k];
  }

  lemma ReportsStayHonest(t: Tx, wire: seq<Packet>, sent: seq<Packet>)
    requires TracksAgree(t, wire) && ReportsHonest(wire)
    requires forall k :: 0 <= k < |sent| && sent[k].SenderReport? ==> Leads(t, sent, k)
    ensures ReportsHonest(wire + sent)
  {
    forall i | 0 <= i < |wire + sent| && (wire + sent)[i].SenderReport?
      ensures ReportHonest(wire + sent, i)
    {
      if i < |wire| {
        OldReportHonest(wire, sent, i);
      } else {
        NewReportHonest(t, wire, sent, i - |wire|);
      }
    }
  }

  lemma ReportsSentHonest(t: Tx, op: Op, wire: seq<Packet>)
    requires TracksAgree(t, wire) && ReportsHonest(wire)
    ensures ReportsHonest(wire + Step(t, op).1)
  {
    var sent := Step(t, op).1;
    forall k | 0 <= k < |sent| && sent[k].SenderReport?
      ensures Leads(t, sent, k)
    {
      ReportPosition(t, op, k);
    }
    ReportsStayHonest(t, wire, sent);
  }

  /** Inside one operation reports come first and show the counters it started from. */
  lemma ReportPosition(t: Tx, op: Op, k: nat)
    requires k < |Step(t, op).1| && Step(t, op).1[k].SenderReport?
    ensures Leads(t, Step(t, op).1, k)
  {
    var sent := Step(t, op).1;
    assert k < 2;
    assert forall i :: 0 <= i < k ==> sent[..k][i].SenderReport?;
    ReportsAreNoMedia(sent[k].track, sent[..k]);
  }

  /** Over any history: counters and reports equal the number and the payload octets of the
      packets of the track handed to the socket, mod 2^32. */
  lemma {:induction false} CountersMatchHistory(audioSeq: u16, videoSeq: u16, ops: seq<Op>)
    ensures var t0 := Start(audioSeq, videoSeq);
            TracksAgree(After(t0, ops), Wire(t0, ops)) && ReportsHonest(Wire(t0, ops))
    decreases |ops|
  {
    if ops != [] {
      var t0, front, op := Start(audioSeq, videoSeq), ops[..|ops| - 1], ops[|ops| - 1];
      CountersMatchHistory(audioSeq, videoSeq, front);
      CountersStep(After(t0, front), op, Wire(t0, front));
      ReportsSentHonest(After(t0, front), op, Wire(t0, front));
    }
  }
}
