/** What the frame readers and the streamer make of a source, and what any history of the transport
    that carries it leaves on the wire. The streamer may share its track with other senders: the one
    it replaces, the one that replaces it, keepalive frames. */
module Pipeline {
  import opened Media
  import opened OpusTiming
  import opened VideoTiming
  import OggDemux
  import OggMux
  import IvfDemux
  import opened Streamer
  import opened StreamerSafety
  import opened StreamerRuns
  import opened RtpTransport
  import opened RtpTrace
  import opened RtpNumbering
  import opened RtpSharing

  /** What a frame reader returns call by call: its samples, then its error. */
  function Feed(samples: seq<Sample>, error: Error): (items: seq<Item>)
    ensures |items| == |samples| + 1 && items[|samples|] == Err(error)
    ensures forall i :: 0 <= i < |samples| ==> items[i] == Ok(samples[i])
  {
    seq(|samples|, i requires 0 <= i < |samples| => Ok(samples[i])) + [Err(error)]
  }

  lemma {:induction false} ValuesOfOks(items: seq<Item>, samples: seq<Sample>)
    requires |items| == |samples| && forall i :: 0 <= i < |samples| ==> items[i] == Ok(samples[i])
    ensures Values(items) == samples
  {
    if items != [] {
      var n := |items| - 1;
      ValuesOfOks(items[..n], samples[..n]);
      assert samples == samples[..n] + [samples[n]];
    }
  }

  lemma ValuesOfFeed(samples: seq<Sample>, error: Error)
    ensures Values(Feed(samples, error)) == samples
  {
    var items := Feed(samples, error);
    ValuesOfOks(items[..|samples|], samples);
  }

  /** `log` is what some run of the streamer over a reader's samples has handled. */
  ghost predicate Streams(samples: seq<Sample>, error: Error, now: nat, es: seq<Event>, log: seq<Frame>) {
    var s := Init(Feed(samples, error), now);
    Possible(s, es) && log == Run(s, es).hist.log
  }

  lemma HandledInOrder(samples: seq<Sample>, error: Error, now: nat, es: seq<Event>, log: seq<Frame>)
    requires Streams(samples, error, now, es, log)
    ensures Frames(log) <= samples
  {
    var s := Init(Feed(samples, error), now);
    EveryRunIsSafe(Feed(samples, error), now, es);
    SourceFixed(s, es);
    HandledIsPrefix(Run(s, es));
    ValuesOfFeed(samples, error);
  }

  lemma {:induction false} SentArePicked(log: seq<Frame>, samples: seq<Sample>)
    requires Frames(log) <= samples
    ensures |log| <= |samples| && SentOf(log) == Picked(samples, Unmuted(log))
  {
    forall j | 0 <= j < |SentOf(log)|
      ensures SentOf(log)[j] == samples[Unmuted(log)[j]]
    {
      assert Frames(log)[Unmuted(log)[j]] == samples[Unmuted(log)[j]];
    }
  }

  /** What a run of the streamer sends are the reader's samples at the positions not muted, in order
      and of a prefix; the whole prefix when the sound is never switched off. */
  lemma StreamedInOrder(samples: seq<Sample>, error: Error, now: nat, es: seq<Event>, log: seq<Frame>)
    requires Streams(samples, error, now, es, log)
    ensures |log| <= |samples| && SentOf(log) == Picked(samples, Unmuted(log))
    ensures Increasing(Unmuted(log)) && (NeverMutes(es) ==> Everyone(Unmuted(log), |log|))
  {
    HandledInOrder(samples, error, now, es, log);
    SentArePicked(log, samples);
    UnmutedInOrder(log);
    if NeverMutes(es) {
      UnmutedRun(Init(Feed(samples, error), now), es);
    }
  }

  // ----- Audio -----

  /** `mine` are a streamer's sends among the audio sends a transport history accepts, by position:
      the k-th is sent[k]. Not all of `sent` need be accepted. */
  ghost predicate CarriesAudio(t: Tx, ops: seq<Op>, sent: seq<Sample>, mine: seq<nat>) {
    var sends := Accepted(Audio, t, ops);
    && |mine| <= |sent| && Positions(mine, |sends|)
    && forall k :: 0 <= k < |mine| ==> sends[mine[k]].payload == sent[k].data && sends[mine[k]].nanos == sent[k].duration
  }

  /** Samples at 48 kHz in a list of packets. */
  function SamplesIn(packets: seq<seq<byte>>): nat {
    if packets == [] then 0 else SamplesIn(packets[..|packets| - 1]) + PacketSamples(packets[|packets| - 1])
  }

  lemma {:induction false} TicksAreSamples(cs: seq<Call>, packets: seq<seq<byte>>)
    requires |cs| == |packets|
    requires forall k :: 0 <= k < |cs| ==> cs[k].ticks == AudioTicks(ParseOpusPacketDuration(packets[k]))
    ensures TicksAll(cs) == SamplesIn(packets)
  {
    if cs != [] {
      var n := |cs| - 1;
      TicksAreSamples(cs[..n], packets[..n]);
      OpusTimingExact(packets[n]);
    }
  }

  /** The audio packet is packet k of the list. It is the `place`-th send of its track, and is
      numbered so; its timestamp is ts0 plus the samples of all the packets before it, lost ones
      included, plus the others' ticks. Without those it would be exact, and it is exactly when they
      make whole turns of the clock. */
  ghost predicate PlaysAt(p: Packet, packets: seq<seq<byte>>, seq0: u16, ts0: u32, k: nat, place: nat, others: nat)
    requires k < |packets|
  {
    && p.Rtp? && p.payload == packets[k]
    && p.seqNo == Num(seq0, place) && ShiftedBy(p.ts, ts0, SamplesIn(packets[..k]), others)
  }

  /** On the audio wire the calls that reached it, in order; those at the positions `mine` play the
      packets, each in its place. */
  ghost predicate PlaysOut(wire: seq<Packet>, packets: seq<seq<byte>>, cs: seq<Call>, mine: seq<nat>, seq0: u16, ts0: u32) {
    && |mine| <= |packets| && Positions(mine, |cs|)
    && |wire| == |Reached(cs)| && Increasing(Reached(cs))
    && forall j, k :: 0 <= j < |wire| && 0 <= k < |mine| && Reached(cs)[j] == mine[k] ==>
         PlaysAt(wire[j], packets, seq0, ts0, k, mine[k], OthersTicks(cs, mine, mine[k]))
  }

  /** The streamer's k-th call is packet k: its play time, and its bytes or nothing. */
  lemma AudioCalls(packets: seq<seq<byte>>, sent: seq<Sample>, t: Tx, ops: seq<Op>, mine: seq<nat>)
    requires sent <= OggDemux.Samples(packets) && CarriesAudio(t, ops, sent, mine)
    ensures var cs := Calls(Audio, t, ops);
            && |mine| <= |packets| && Positions(mine, |cs|)
            && forall k :: 0 <= k < |mine| ==>
                 && cs[mine[k]].ticks == AudioTicks(ParseOpusPacketDuration(packets[k]))
                 && (cs[mine[k]].payloads == [] || cs[mine[k]].payloads == [packets[k]])
  {
    CallsCarry(Audio, t, ops);
    var cs, sends := Calls(Audio, t, ops), Accepted(Audio, t, ops);
    forall k | 0 <= k < |mine|
      ensures cs[mine[k]].ticks == AudioTicks(ParseOpusPacketDuration(packets[k]))
      ensures cs[mine[k]].payloads == [] || cs[mine[k]].payloads == [packets[k]]
    {
      assert Carries(cs[mine[k]], sends[mine[k]]) && sent[k] == OggDemux.Samples(packets)[k];
    }
  }

  lemma AudioStamps(packets: seq<seq<byte>>, cs: seq<Call>, mine: seq<nat>, k: nat)
    requires Positions(mine, |cs|) && k < |mine| <= |packets|
    requires forall i :: 0 <= i < |mine| ==> cs[mine[i]].ticks == AudioTicks(ParseOpusPacketDuration(packets[i]))
    ensures TicksAll(cs[..mine[k]]) == SamplesIn(packets[..k]) + OthersTicks(cs, mine, mine[k])
  {
    TicksSplit(cs, mine, mine[k], k);
    TicksAreSamples(Picked(cs, mine)[..k], packets[..k]);
  }

  lemma AudioPlays(packets: seq<seq<byte>>, cs: seq<Call>, mine: seq<nat>, k: nat, seq0: u16, ts0: u32)
    requires Positions(mine, |cs|) && k < |mine| <= |packets|
    requires forall i :: 0 <= i < |mine| ==> cs[mine[i]].ticks == AudioTicks(ParseOpusPacketDuration(packets[i]))
    requires cs[mine[k]].payloads == [packets[k]]
    ensures PlaysAt(AudioPacket(seq0, ts0, cs, mine[k]), packets, seq0, ts0, k, mine[k], OthersTicks(cs, mine, mine[k]))
  {
    AudioStamps(packets, cs, mine, k);
    OwnTimeIff(ts0, TicksAll(cs[..mine[k]]), SamplesIn(packets[..k]), OthersTicks(cs, mine, mine[k]));
  }

  /** Whatever the transport loses on the way, and whoever else sends on the track: what the
      streamer gets onto the wire is in place. */
  lemma {:induction false} AudioOnWire(packets: seq<seq<byte>>, sent: seq<Sample>, t: Tx, ops: seq<Op>, mine: seq<nat>)
    requires sent <= OggDemux.Samples(packets) && CarriesAudio(t, ops, sent, mine)
    ensures PlaysOut(RtpOf(Audio, Wire(t, ops)), packets, Calls(Audio, t, ops), mine, t.audio.seqNo, t.audio.ts)
  {
    var cs, wire := Calls(Audio, t, ops), RtpOf(Audio, Wire(t, ops));
    WireLaw(Audio, t, ops);
    AudioWire(t.audio.seqNo, t.audio.ts, cs);
    AudioCalls(packets, sent, t, ops, mine);
    ReachedExactly(cs);
    forall j, k | 0 <= j < |wire| && 0 <= k < |mine| && Reached(cs)[j] == mine[k]
      ensures PlaysAt(wire[j], packets, t.audio.seqNo, t.audio.ts, k, mine[k], OthersTicks(cs, mine, mine[k]))
    {
      AudioPlays(packets, cs, mine, k, t.audio.seqNo, t.audio.ts);
    }
  }

  /** Alone on its track a packet that reached the wire has the number and the timestamp of its own
      place in the list. */
  lemma AudioAlone(packets: seq<seq<byte>>, sent: seq<Sample>, t: Tx, ops: seq<Op>, mine: seq<nat>)
    requires sent <= OggDemux.Samples(packets) && CarriesAudio(t, ops, sent, mine)
    requires Everyone(mine, |Accepted(Audio, t, ops)|)
    ensures var wire, reached := RtpOf(Audio, Wire(t, ops)), Reached(Calls(Audio, t, ops));
            && |wire| == |reached| && Positions(reached, |packets|)
            && forall j :: 0 <= j < |wire| ==> PlaysAt(wire[j], packets, t.audio.seqNo, t.audio.ts, reached[j], reached[j], 0)
  {
    var cs := Calls(Audio, t, ops);
    AudioOnWire(packets, sent, t, ops, mine);
    CallsCarry(Audio, t, ops);
    forall j | 0 <= j < |Reached(cs)|
      ensures PlaysAt(RtpOf(Audio, Wire(t, ops))[j], packets, t.audio.seqNo, t.audio.ts, Reached(cs)[j], Reached(cs)[j], 0)
    {
      var k := Reached(cs)[j];
      AloneOthers(cs, mine, k);
      assert mine[k] == Reached(cs)[j];
    }
  }

  /** Alone and with nothing lost the wire is a prefix of the packets: packet k is packet k. */
  lemma AudioInFull(packets: seq<seq<byte>>, sent: seq<Sample>, t: Tx, ops: seq<Op>, mine: seq<nat>)
    requires sent <= OggDemux.Samples(packets) && CarriesAudio(t, ops, sent, mine)
    requires Everyone(mine, |Accepted(Audio, t, ops)|) && Unhindered(Audio, t, ops)
    ensures var wire := RtpOf(Audio, Wire(t, ops));
            && |wire| == |mine| <= |packets|
            && forall k :: 0 <= k < |wire| ==> PlaysAt(wire[k], packets, t.audio.seqNo, t.audio.ts, k, k, 0)
  {
    AudioAlone(packets, sent, t, ops, mine);
    UnhinderedCalls(Audio, t, ops);
    AllReached(Calls(Audio, t, ops));
  }

  lemma PickedSamples(packets: seq<seq<byte>>, samples: seq<Sample>, at: seq<nat>)
    requires samples <= OggDemux.Samples(packets) && forall j :: 0 <= j < |at| ==> at[j] < |samples|
    ensures Picked(samples, at) == OggDemux.Samples(Picked(packets, at))
  {
    forall j | 0 <= j < |at|
      ensures Picked(samples, at)[j] == OggDemux.Samples(Picked(packets, at))[j]
    {
      assert samples[at[j]] == OggDemux.Samples(packets)[at[j]];
    }
  }

  // ----- Video -----

  /** The bytes a receiver gets from a frame's chunks once the payload descriptors are off. */
  function Joined(strip: seq<byte> -> seq<byte>, frame: seq<(u32, seq<byte>)>): seq<byte> {
    if frame == [] then [] else Joined(strip, frame[..|frame| - 1]) + strip(frame[|frame| - 1].1)
  }

  lemma {:induction false} JoinedIgnoresTime(strip: seq<byte> -> seq<byte>, a: u32, b: u32, chunks: seq<seq<byte>>)
    ensures Joined(strip, Stamped(a, chunks)) == Joined(strip, Stamped(b, chunks))
    decreases |chunks|
  {
    if chunks != [] {
      var n := |chunks| - 1;
      JoinedIgnoresTime(strip, a, b, chunks[..n]);
      assert Stamped(a, chunks)[..n] == Stamped(a, chunks[..n]) && Stamped(b, chunks)[..n] == Stamped(b, chunks[..n]);
    }
  }

  /** `mine` are a streamer's sends among the video sends a transport history accepts. */
  ghost predicate CarriesVideo(t: Tx, ops: seq<Op>, sent: seq<Sample>, mine: seq<nat>) {
    var sends := Accepted(Video, t, ops);
    && |mine| <= |sent| && Positions(mine, |sends|)
    && forall k :: 0 <= k < |mine| ==> sends[mine[k]].nanos == sent[k].duration
  }

  /** The payloader cuts a frame into chunks that join to the frame, or fails. */
  ghost predicate ChunksJoin(strip: seq<byte> -> seq<byte>, t: Tx, ops: seq<Op>, sent: seq<Sample>, mine: seq<nat>)
    requires CarriesVideo(t, ops, sent, mine)
  {
    var sends := Accepted(Video, t, ops);
    forall k :: 0 <= k < |mine| && sends[mine[k]].chunks.Some? ==>
      Joined(strip, Stamped(0, sends[mine[k]].chunks.value)) == sent[k].data
  }

  lemma {:induction false} SteadyTicks(cs: seq<Call>, ticks: nat)
    requires forall k :: 0 <= k < |cs| ==> cs[k].ticks == ticks
    ensures TicksAll(cs) == Steps(ticks, |cs|)
    decreases |cs|
  {
    if cs != [] {
      SteadyTicks(cs[..|cs| - 1], ticks);
    }
  }

  /** The play time of k frames of a steady stream, in ticks. */
  function Steps(ticks: nat, k: nat): nat {
    k * ticks
  }

  /** The frame a receiver has cut out is a frame of the stream: its chunks join to the frame's data
      and all carry one timestamp, k steps and the others' ticks after ts0; the stream's own time
      exactly when those make whole turns of the clock. */
  ghost predicate ShowsAt(strip: seq<byte> -> seq<byte>, frame: seq<(u32, seq<byte>)>, data: seq<byte>,
                          ts0: u32, ticks: nat, k: nat, others: nat)
  {
    && frame != [] && Joined(strip, frame) == data
    && forall i :: 0 <= i < |frame| ==> ShiftedBy(frame[i].0, ts0, Steps(ticks, k), others)
  }

  /** The frames cut out are the calls that reached the wire, in order; those at the positions `mine`
      show the stream's frames, each in its place on the clock. */
  ghost predicate FramesShow(strip: seq<byte> -> seq<byte>, frames: seq<seq<(u32, seq<byte>)>>, cs: seq<Call>,
                             mine: seq<nat>, sent: seq<Sample>, ts0: u32, ticks: nat)
  {
    && |mine| <= |sent| && Positions(mine, |cs|)
    && |frames| == |Reached(cs)| && Increasing(Reached(cs))
    && forall j, k :: 0 <= j < |frames| && 0 <= k < |mine| && Reached(cs)[j] == mine[k] ==>
         ShowsAt(strip, frames[j], sent[k].data, ts0, ticks, k, OthersTicks(cs, mine, mine[k]))
  }

  /** A receiver that cuts the video wire after each marker is left with nothing over and shows the
      frames that reached it, none torn; the numbers run on without a gap exactly when the sends
      are in step; the clock has moved on by the stream's steps and the others'. */
  ghost predicate ShowsOut(strip: seq<byte> -> seq<byte>, sent: seq<Sample>, ticks: nat, t: Tx, ops: seq<Op>, mine: seq<nat>) {
    var wire, cs := RtpOf(Video, Wire(t, ops)), Calls(Video, t, ops);
    && Depacketize(wire).open == []
    && FramesShow(strip, Depacketize(wire).frames, cs, mine, sent, t.video.ts, ticks)
    && (Consecutive(wire, t.video.seqNo) <==> InStep(cs))
    && ShiftedBy(After(t, ops).video.ts, t.video.ts, Steps(ticks, |mine|), OthersTicks(cs, mine, |cs|))
  }

  lemma VideoCalls(strip: seq<byte> -> seq<byte>, sent: seq<Sample>, duration: nat, t: Tx, ops: seq<Op>, mine: seq<nat>)
    requires CarriesVideo(t, ops, sent, mine) && ChunksJoin(strip, t, ops, sent, mine)
    requires forall i :: 0 <= i < |sent| ==> sent[i].duration == duration
    ensures var cs := Calls(Video, t, ops);
            && Positions(mine, |cs|)
            && forall k :: 0 <= k < |mine| ==>
                 && cs[mine[k]].ticks == VideoTicks(duration)
                 && (cs[mine[k]].payloads != [] ==> Joined(strip, Stamped(0, cs[mine[k]].payloads)) == sent[k].data)
  {
    CallsCarry(Video, t, ops);
    var cs, sends := Calls(Video, t, ops), Accepted(Video, t, ops);
    forall k | 0 <= k < |mine|
      ensures cs[mine[k]].ticks == VideoTicks(duration)
      ensures cs[mine[k]].payloads != [] ==> Joined(strip, Stamped(0, cs[mine[k]].payloads)) == sent[k].data
    {
      assert Carries(cs[mine[k]], sends[mine[k]]);
    }
  }

  lemma SteadySplit(cs: seq<Call>, mine: seq<nat>, ticks: nat, p: nat, k: nat)
    requires Positions(mine, |cs|) && p <= |cs| && Own(mine, p, k)
    requires forall i :: 0 <= i < |mine| ==> cs[mine[i]].ticks == ticks
    ensures TicksAll(cs[..p]) == Steps(ticks, k) + OthersTicks(cs, mine, p)
  {
    TicksSplit(cs, mine, p, k);
    SteadyTicks(Picked(cs, mine)[..k], ticks);
  }

  lemma FrameShows(strip: seq<byte> -> seq<byte>, data: seq<byte>, ticks: nat, ts0: u32, cs: seq<Call>, mine: seq<nat>, k: nat)
    requires Positions(mine, |cs|) && k < |mine| && cs[mine[k]].payloads != []
    requires forall i :: 0 <= i < |mine| ==> cs[mine[i]].ticks == ticks
    requires Joined(strip, Stamped(0, cs[mine[k]].payloads)) == data
    ensures ShowsAt(strip, Stamped(Stamp(ts0, TicksAll(cs[..mine[k]])), cs[mine[k]].payloads), data,
                    ts0, ticks, k, OthersTicks(cs, mine, mine[k]))
  {
    SteadySplit(cs, mine, ticks, mine[k], k);
    OwnTimeIff(ts0, TicksAll(cs[..mine[k]]), Steps(ticks, k), OthersTicks(cs, mine, mine[k]));
    JoinedIgnoresTime(strip, 0, Stamp(ts0, TicksAll(cs[..mine[k]])), cs[mine[k]].payloads);
  }

  lemma SentFramesShow(strip: seq<byte> -> seq<byte>, sent: seq<Sample>, ticks: nat, ts0: u32, cs: seq<Call>, mine: seq<nat>)
    requires |mine| <= |sent| && Positions(mine, |cs|)
    requires forall k :: 0 <= k < |mine| ==> cs[mine[k]].ticks == ticks
    requires forall k :: 0 <= k < |mine| && cs[mine[k]].payloads != [] ==>
               Joined(strip, Stamped(0, cs[mine[k]].payloads)) == sent[k].data
    ensures FramesShow(strip, FramesSent(ts0, cs), cs, mine, sent, ts0, ticks)
  {
    FramesReached(ts0, cs);
    ReachedExactly(cs);
    forall j, k | 0 <= j < |Reached(cs)| && 0 <= k < |mine| && Reached(cs)[j] == mine[k]
      ensures ShowsAt(strip, FramesSent(ts0, cs)[j], sent[k].data, ts0, ticks, k, OthersTicks(cs, mine, mine[k]))
    {
      FrameShows(strip, sent[k].data, ticks, ts0, cs, mine, k);
    }
  }

  lemma VideoClock(sent: seq<Sample>, ticks: nat, t: Tx, ops: seq<Op>, mine: seq<nat>)
    requires Positions(mine, |Calls(Video, t, ops)|)
    requires forall k :: 0 <= k < |mine| ==> Calls(Video, t, ops)[mine[k]].ticks == ticks
    ensures var cs := Calls(Video, t, ops);
            ShiftedBy(After(t, ops).video.ts, t.video.ts, Steps(ticks, |mine|), OthersTicks(cs, mine, |cs|))
  {
    var cs := Calls(Video, t, ops);
    WireLaw(Video, t, ops);
    assert cs[..|cs|] == cs;
    SteadySplit(cs, mine, ticks, |cs|, |mine|);
    OwnTimeIff(t.video.ts, TicksAll(cs), Steps(ticks, |mine|), OthersTicks(cs, mine, |cs|));
  }

  lemma {:induction false} VideoOnWire(strip: seq<byte> -> seq<byte>, sent: seq<Sample>, duration: nat, t: Tx, ops: seq<Op>, mine: seq<nat>)
    requires CarriesVideo(t, ops, sent, mine) && ChunksJoin(strip, t, ops, sent, mine)
    requires forall i :: 0 <= i < |sent| ==> sent[i].duration == duration
    ensures ShowsOut(strip, sent, VideoTicks(duration), t, ops, mine)
  {
    var cs := Calls(Video, t, ops);
    VideoDepacketizes(t, ops);
    WireConsecutiveIff(Video, t, ops);
    VideoCalls(strip, sent, duration, t, ops, mine);
    SentFramesShow(strip, sent, VideoTicks(duration), t.video.ts, cs, mine);
    VideoClock(sent, VideoTicks(duration), t, ops, mine);
  }

  /** With the link up and no failure no frame with bytes in it is missing. */
  lemma VideoInFull(strip: seq<byte> -> seq<byte>, sent: seq<Sample>, t: Tx, ops: seq<Op>, mine: seq<nat>)
    requires CarriesVideo(t, ops, sent, mine) && ChunksJoin(strip, t, ops, sent, mine)
    requires Unhindered(Video, t, ops)
    ensures forall k :: 0 <= k < |mine| && sent[k].data != [] ==> mine[k] in Reached(Calls(Video, t, ops))
  {
    UnhinderedCalls(Video, t, ops);
    UnhinderedSends(Video, t, ops);
    ReachedExactly(Calls(Video, t, ops));
  }

  lemma {:induction false} UnhinderedSends(track: Track, t: Tx, ops: seq<Op>)
    requires Unhindered(track, t, ops)
    ensures forall k :: 0 <= k < |Accepted(track, t, ops)| ==> Sendable(Accepted(track, t, ops)[k])
    decreases |ops|
  {
    if ops != [] {
      UnhinderedSends(track, t, ops[..|ops| - 1]);
    }
  }

  /** The frame's packets carry the timestamp of k steps and the others' ticks, and k steps are as
      close to the file's own time 90000 k num / den as k roundings allow. */
  ghost predicate OnFileTime(frame: seq<(u32, seq<byte>)>, ts0: u32, den: nat, num: nat, k: nat, others: nat) {
    && (forall i :: 0 <= i < |frame| ==> ShiftedBy(frame[i].0, ts0, Steps(FrameTicks(den, num), k), others))
    && KeepsTime(den, num, k)
  }

  ghost predicate AllOnFileTime(den: nat, num: nat, t: Tx, ops: seq<Op>, mine: seq<nat>)
    requires Positions(mine, |Calls(Video, t, ops)|)
  {
    var frames, cs := Depacketize(RtpOf(Video, Wire(t, ops))).frames, Calls(Video, t, ops);
    && |frames| == |Reached(cs)|
    && forall j, k :: 0 <= j < |frames| && 0 <= k < |mine| && Reached(cs)[j] == mine[k] ==>
         OnFileTime(frames[j], t.video.ts, den, num, k, OthersTicks(cs, mine, mine[k]))
  }

  lemma ShownOnFileTime(strip: seq<byte> -> seq<byte>, sent: seq<Sample>, den: nat, num: nat, t: Tx, ops: seq<Op>, mine: seq<nat>)
    requires ShowsOut(strip, sent, FrameTicks(den, num), t, ops, mine) && 0 < den && 0 < num
    ensures AllOnFileTime(den, num, t, ops, mine)
  {
    var frames, cs := Depacketize(RtpOf(Video, Wire(t, ops))).frames, Calls(Video, t, ops);
    forall j, k | 0 <= j < |frames| && 0 <= k < |mine| && Reached(cs)[j] == mine[k]
      ensures OnFileTime(frames[j], t.video.ts, den, num, k, OthersTicks(cs, mine, mine[k]))
    {
      assert ShowsAt(strip, frames[j], sent[k].data, t.video.ts, FrameTicks(den, num), k, OthersTicks(cs, mine, mine[k]));
      DriftBound(den, num, k);
    }
  }

  lemma PickedFrames(frames: seq<IvfDemux.Frame>, duration: nat, samples: seq<Sample>, at: seq<nat>)
    requires samples <= IvfDemux.Samples(frames, duration) && forall j :: 0 <= j < |at| ==> at[j] < |samples|
    ensures forall j :: 0 <= j < |at| ==>
              Picked(samples, at)[j].duration == duration && Picked(samples, at)[j].data == frames[at[j]].data
  {
    forall j | 0 <= j < |at|
      ensures Picked(samples, at)[j].duration == duration && Picked(samples, at)[j].data == frames[at[j]].data
    {
      assert samples[at[j]] == IvfDemux.Samples(frames, duration)[at[j]];
    }
  }

  /** The clock step is 90000 num / den itself whenever this is a whole number. */
  lemma ExactStep(den: nat, num: nat)
    requires 0 < den && 0 < num && 90_000 * num % den == 0
    ensures FrameTicks(den, num) == 90_000 * num / den
  {
    TickExact(den, num);
    var exact := 90_000 * num / den;
    assert exact * den == FrameTicks(den, num) * den;
    TickError(den, num);
    Whole(FrameTicks(den, num), exact, den);
  }
}
