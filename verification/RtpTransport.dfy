/** The sending side of DirectTransport (wrtc/native/direct_transport.rs): sequence numbers,
    timestamps, markers and sender counters of the audio and the video track.

    `Step` says what one operation does to the fields and what it hands to the socket;
    `DirectTransport` has the program's own methods, proved against it. SRTP is the identity on
    what is sent, or fails. The VP8 payloader is the environment's: the chunks it returns, or
    its failure, come with the operation. A track stands for its SSRC. */
module RtpTransport {
  import opened Media
  import opened OpusTiming
  import opened VideoTiming

  const OPUS_PAYLOAD_TYPE := 111

  datatype Track = Audio | Video

  /** What is handed to the socket. */
  datatype Packet =
    | Rtp(track: Track, seqNo: u16, ts: u32, marker: bool, absTime: nat, payload: seq<byte>)
    | SenderReport(track: Track, ntp: nat, rtpTime: u32, packets: u32, octets: u32)

  /** Fields kept per track: audio_seq, audio_ts, first_audio, audio_packets, audio_octets. */
  datatype Sender = Sender(seqNo: u16, ts: u32, first: bool, packets: u32, octets: u32)

  datatype Epoch = Epoch(ntp: nat, audioTs: u32, videoTs: u32)

  datatype Tx = Tx(closed: bool, srtp: bool, socket: bool, epoch: Option<Epoch>, audio: Sender, video: Sender)

  /** Which of the two sender reports can be built and encrypted. */
  datatype Sealed = Sealed(audio: bool, video: bool)

  /** `ok` and `failAt` say whether, and at which chunk, marshalling or encryption fails;
      `chunks` is what the payloader returns; `ntp` is the clock reading. */
  datatype Op =
    | SendAudio(payload: seq<byte>, nanos: nat, ntp: nat, ok: bool, sealed: Sealed)
    | SendVideo(chunks: Option<seq<seq<byte>>>, nanos: nat, ntp: nat, failAt: Option<nat>, sealed: Sealed)
    | Reset | Connect | Handshake | Close
    | Report(ntp: nat, sealed: Sealed)

  function AbsTime(ntp: nat): nat {
    ntp / 0x4000 % TWO24
  }

  function ReportOf(track: Track, s: Sender, ntp: nat): Packet {
    SenderReport(track, ntp, s.ts, s.packets, s.octets)
  }

  /** emit_rtcp_sender_reports: one report a track, once the epoch is set, unless it cannot be built
      or encrypted. */
  function Reports(t: Tx, ntp: nat, sealed: Sealed): seq<Packet> {
    if t.epoch.Some? && t.srtp then
      (if sealed.audio then [ReportOf(Audio, t.audio, ntp)] else [])
      + (if sealed.video then [ReportOf(Video, t.video, ntp)] else [])
    else []
  }

  /** The first send after the start or a reset fixes the epoch and reports. */
  function StartEpoch(t: Tx, ntp: nat, sealed: Sealed): (Tx, seq<Packet>) {
    if t.epoch.Some? then (t, [])
    else
      var t1 := t.(epoch := Some(Epoch(ntp, t.audio.ts, t.video.ts)));
      (t1, if t.socket then Reports(t1, ntp, sealed) else [])
  }

  /** n numbers after seq0, on 16 bits. */
  function Num(seq0: u16, n: nat): u16 {
    (seq0 + n) % TWO16
  }

  /** n ticks after ts0, on 32 bits. */
  function Stamp(ts0: u32, n: nat): u32 {
    (ts0 + n) % TWO32
  }

  lemma NumAdd(seq0: u16, a: nat, b: nat)
    ensures Num(Num(seq0, a), b) == Num(seq0, a + b)
  {
  }

  lemma StampAdd(ts0: u32, a: nat, b: nat)
    ensures Stamp(Stamp(ts0, a), b) == Stamp(ts0, a + b)
  {
  }

  /** fetch_add on the sequence number and the timestamp, both wrapping. */
  function Advance(s: Sender, seqs: nat, ticks: nat): Sender {
    s.(seqNo := Num(s.seqNo, seqs), ts := (s.ts + ticks % TWO32) % TWO32, first := false)
  }

  function Count(s: Sender, octets: nat): Sender {
    s.(packets := (s.packets + 1) % TWO32, octets := (s.octets + octets % TWO32) % TWO32)
  }

  function CountAll(s: Sender, chunks: seq<seq<byte>>): Sender {
    if chunks == [] then s else Count(CountAll(s, chunks[..|chunks| - 1]), |chunks[|chunks| - 1]|)
  }

  /** The audio branch; `up` when there is a cipher and a socket. */
  function AudioSend(s: Sender, up: bool, payload: seq<byte>, nanos: nat, ntp: nat, ok: bool): (Sender, seq<Packet>) {
    var s1 := Advance(s, 1, AudioTicks(nanos));
    if ok && up then (Count(s1, |payload|), [Rtp(Audio, s.seqNo, s.ts, s.first, AbsTime(ntp), payload)])
    else (s1, [])
  }

  function FramePackets(seqNo: u16, ts: u32, absTime: nat, chunks: seq<seq<byte>>): (ps: seq<Packet>)
    ensures |ps| == |chunks|
    ensures forall i :: 0 <= i < |ps| ==>
              ps[i] == Rtp(Video, Num(seqNo, i), ts, i == |chunks| - 1, absTime, chunks[i])
  {
    seq(|chunks|, i requires 0 <= i < |chunks| =>
      Rtp(Video, Num(seqNo, i), ts, i == |chunks| - 1, absTime, chunks[i]))
  }

  /** Marshalling or encryption fails at one of the chunks. */
  predicate Fails(chunks: seq<seq<byte>>, failAt: Option<nat>) {
    failAt.Some? && failAt.value < |chunks|
  }

  /** The video branch: nothing is numbered before there is something to send and a way to. */
  function VideoSend(s: Sender, up: bool, chunks: Option<seq<seq<byte>>>, nanos: nat, ntp: nat, failAt: Option<nat>)
    : (Sender, seq<Packet>)
  {
    if chunks == None || chunks.value == [] || !up then (Advance(s, 0, VideoTicks(nanos)), [])
    else
      var cs := chunks.value;
      if Fails(cs, failAt) then (Advance(s, failAt.value + 1, VideoTicks(nanos)), [])
      else
        (CountAll(Advance(s, |cs|, VideoTicks(nanos)), cs), FramePackets(s.seqNo, s.ts, AbsTime(ntp), cs))
  }

  /** A media operation once the epoch is set. */
  function Transmit(t: Tx, op: Op): (Tx, seq<Packet>)
    requires op.SendAudio? || op.SendVideo?
  {
    match op
    case SendAudio(payload, nanos, ntp, ok, _) =>
      var (s, sent) := AudioSend(t.audio, t.srtp && t.socket, payload, nanos, ntp, ok);
      (t.(audio := s), sent)
    case SendVideo(chunks, nanos, ntp, failAt, _) =>
      var (s, sent) := VideoSend(t.video, t.srtp && t.socket, chunks, nanos, ntp, failAt);
      (t.(video := s), sent)
  }

  /** send_rtp_bytes */
  function MediaStep(t: Tx, op: Op): (Tx, seq<Packet>)
    requires op.SendAudio? || op.SendVideo?
  {
    if t.closed then (t, [])
    else
      var (t1, reports) := StartEpoch(t, op.ntp, op.sealed);
      var (t2, sent) := Transmit(t1, op);
      (t2, reports + sent)
  }

  function Step(t: Tx, op: Op): (Tx, seq<Packet>) {
    match op
    case SendAudio(_, _, _, _, _) => MediaStep(t, op)
    case SendVideo(_, _, _, _, _) => MediaStep(t, op)
    case Reset => (t.(epoch := None, audio := t.audio.(first := true), video := t.video.(first := true)), [])
    case Connect => (if t.closed then t else t.(socket := true), [])
    case Handshake => (t.(srtp := true), [])
    case Close => (if t.closed then t else t.(closed := true, srtp := false, socket := false, epoch := None), [])
    case Report(ntp, sealed) => (t, if t.closed then [] else Reports(t, ntp, sealed))
  }

  /** Any payload type but Opus is taken for VP8. */
  function MediaOp(payloadType: byte, payload: seq<byte>, duration: nat, ntp: nat,
                   chunks: Option<seq<seq<byte>>>, ok: bool, failAt: Option<nat>, sealed: Sealed): (op: Op)
    ensures op.SendAudio? || op.SendVideo?
  {
    if payloadType == OPUS_PAYLOAD_TYPE then SendAudio(payload, duration, ntp, ok, sealed)
    else SendVideo(chunks, duration, ntp, failAt, sealed)
  }

  /** When an open transport answers a send with an error: the payloader fails, or a packet that
      was to be sent cannot be marshalled or encrypted. */
  predicate Refused(up: bool, payloadType: byte, chunks: Option<seq<seq<byte>>>, ok: bool, failAt: Option<nat>) {
    if payloadType == OPUS_PAYLOAD_TYPE then !ok
    else chunks == None || (up && Fails(chunks.value, failAt))
  }

  /** What send_rtp_bytes answers. */
  function Answer(t: Tx, payloadType: byte, chunks: Option<seq<seq<byte>>>, ok: bool, failAt: Option<nat>): Option<Error> {
    if t.closed || Refused(t.srtp && t.socket, payloadType, chunks, ok, failAt) then Some(Internal) else None
  }

  class DirectTransport {
    var closed: bool
    var srtpContext: bool // present
    var udpSocket: bool   // present, with the remote address
    var mediaEpoch: Option<Epoch>
    var audioSeq: u16
    var audioTs: u32
    var firstAudio: bool
    var audioPackets: u32
    var audioOctets: u32
    var videoSeq: u16
    var videoTs: u32
    var firstVideo: bool
    var videoPackets: u32
    var videoOctets: u32

    ghost var wire: seq<Packet> // everything handed to the socket

    ghost function AudioSender(): Sender
      reads this
    {
      Sender(audioSeq, audioTs, firstAudio, audioPackets, audioOctets)
    }

    ghost function VideoSender(): Sender
      reads this
    {
      Sender(videoSeq, videoTs, firstVideo, videoPackets, videoOctets)
    }

    ghost function View(): Tx
      reads this
    {
      Tx(closed, srtpContext, udpSocket, mediaEpoch, AudioSender(), VideoSender())
    }

    /** The initial sequence numbers are drawn at random in the program. */
    constructor (audioSeq: u16, videoSeq: u16)
      ensures View() == Start(audioSeq, videoSeq) && wire == []
      ensures !closed && !srtpContext && !udpSocket && mediaEpoch == None
      ensures AudioSender() == Sender(audioSeq, 0, true, 0, 0) && VideoSender() == Sender(videoSeq, 0, true, 0, 0)
    {
      closed, srtpContext, udpSocket, mediaEpoch := false, false, false, None;
      this.audioSeq, audioTs, firstAudio, audioPackets, audioOctets := audioSeq, 0, true, 0, 0;
      this.videoSeq, videoTs, firstVideo, videoPackets, videoOctets := videoSeq, 0, true, 0, 0;
      wire := [];
    }

    /** Hands a packet to the socket. */
    method SendTo(ghost p: Packet)
      modifies `wire
      ensures wire == old(wire) + [p]
    {
      wire := wire + [p];
    }

    method EmitRtcpSenderReports(ntp: nat, sealed: Sealed)
      modifies `wire
      ensures wire == old(wire) + if udpSocket then Reports(View(), ntp, sealed) else []
    {
      if mediaEpoch.Some? && srtpContext && udpSocket {
        if sealed.audio {
          SendTo(ReportOf(Audio, AudioSender(), ntp));
        }
        if sealed.video {
          SendTo(ReportOf(Video, VideoSender(), ntp));
        }
      }
    }

    /** The worker's timer: the same reports on the worker's own socket, while the transport is open. */
    method RtcpTick(ntp: nat, sealed: Sealed)
      modifies `wire
      ensures wire == old(wire) + Step(View(), Report(ntp, sealed)).1
    {
      if !closed && mediaEpoch.Some? && srtpContext {
        if sealed.audio {
          SendTo(ReportOf(Audio, AudioSender(), ntp));
        }
        if sealed.video {
          SendTo(ReportOf(Video, VideoSender(), ntp));
        }
      }
    }

    method SendRtpBytes(payloadType: byte, payload: seq<byte>, duration: nat, ntp: nat,
                        chunks: Option<seq<seq<byte>>>, ok: bool, failAt: Option<nat>, sealed: Sealed)
      returns (r: Option<Error>)
      modifies this
      ensures var (t, sent) := MediaStep(old(View()), MediaOp(payloadType, payload, duration, ntp, chunks, ok, failAt, sealed));
              View() == t && wire == old(wire) + sent
      ensures r == Answer(old(View()), payloadType, chunks, ok, failAt)
    {
      if closed {
        return Some(Internal);
      }
      ghost var reports := StartEpoch(View(), ntp, sealed).1;
      EstablishEpoch(ntp, sealed);
      ghost var sent := Transmit(View(), MediaOp(payloadType, payload, duration, ntp, chunks, ok, failAt, sealed)).1;
      r := TransmitBytes(payloadType, payload, duration, ntp, chunks, ok, failAt, sealed);
      Assoc(old(wire), reports, sent);
    }

    method TransmitBytes(payloadType: byte, payload: seq<byte>, duration: nat, ntp: nat,
                         chunks: Option<seq<seq<byte>>>, ok: bool, failAt: Option<nat>, sealed: Sealed)
      returns (r: Option<Error>)
      modifies this
      ensures var (t, sent) := Transmit(old(View()), MediaOp(payloadType, payload, duration, ntp, chunks, ok, failAt, sealed));
              View() == t && wire == old(wire) + sent
      ensures r == if Refused(srtpContext && udpSocket, payloadType, chunks, ok, failAt) then Some(Internal) else None
    {
      if payloadType == OPUS_PAYLOAD_TYPE {
        r := SendAudioBytes(payload, duration, ntp, ok);
      } else {
        r := SendVideoFrame(chunks, duration, ntp, failAt);
      }
    }

    method EstablishEpoch(ntp: nat, sealed: Sealed)
      modifies `mediaEpoch, `wire
      ensures View() == StartEpoch(old(View()), ntp, sealed).0
      ensures wire == old(wire) + StartEpoch(old(View()), ntp, sealed).1
    {
      if mediaEpoch == None {
        mediaEpoch := Some(Epoch(ntp, audioTs, videoTs));
        EmitRtcpSenderReports(ntp, sealed);
      }
    }

    method SendAudioBytes(payload: seq<byte>, duration: nat, ntp: nat, ok: bool) returns (r: Option<Error>)
      modifies `audioSeq, `audioTs, `firstAudio, `audioPackets, `audioOctets, `wire
      ensures var (s, sent) := AudioSend(old(AudioSender()), srtpContext && udpSocket, payload, duration, ntp, ok);
              AudioSender() == s && wire == old(wire) + sent
      ensures r == if ok then None else Some(Internal)
    {
      var seqNo, ts, marker := audioSeq, audioTs, firstAudio;
      audioSeq := (audioSeq + 1) % TWO16;
      var tsInc := (duration * 48_000 / 1_000_000_000) % TWO32;
      audioTs := (audioTs + tsInc) % TWO32;
      firstAudio := false;
      if !ok {
        return Some(Internal);
      }
      if srtpContext && udpSocket {
        SendTo(Rtp(Audio, seqNo, ts, marker, AbsTime(ntp), payload));
        audioPackets := (audioPackets + 1) % TWO32;
        audioOctets := (audioOctets + |payload| % TWO32) % TWO32;
      }
      return None;
    }

    method SendVideoFrame(chunks: Option<seq<seq<byte>>>, duration: nat, ntp: nat, failAt: Option<nat>)
      returns (r: Option<Error>)
      modifies `videoSeq, `videoTs, `firstVideo, `videoPackets, `videoOctets, `wire
      ensures var (s, sent) := VideoSend(old(VideoSender()), srtpContext && udpSocket, chunks, duration, ntp, failAt);
              VideoSender() == s && wire == old(wire) + sent
      ensures r == if Refused(srtpContext && udpSocket, 0, chunks, true, failAt) then Some(Internal) else None
    {
      var ts := videoTs;
      var tsInc := ((duration * 90_000 + 500_000_000) / 1_000_000_000) % TWO32;
      videoTs := (videoTs + tsInc) % TWO32;
      firstVideo := false;
      if chunks == None {
        return Some(Internal);
      }
      var cs := chunks.value;
      if cs == [] || !udpSocket || !srtpContext {
        return None;
      }
      var encrypted := NumberChunks(cs, ts, ntp, failAt);
      if encrypted == None {
        return Some(Internal);
      }
      SendAll(encrypted.value, cs);
      return None;
    }

    /** The first loop over the chunks: a sequence number each, the marker on the last. */
    method NumberChunks(cs: seq<seq<byte>>, ts: u32, ntp: nat, failAt: Option<nat>) returns (encrypted: Option<seq<Packet>>)
      modifies `videoSeq
      ensures videoSeq == Num(old(videoSeq), if Fails(cs, failAt) then failAt.value + 1 else |cs|)
      ensures encrypted == if Fails(cs, failAt) then None else Some(FramePackets(old(videoSeq), ts, AbsTime(ntp), cs))
    {
      var packets: seq<Packet> := [];
      ghost var all := FramePackets(videoSeq, ts, AbsTime(ntp), cs);
      for idx: nat := 0 to |cs|
        invariant videoSeq == Num(old(videoSeq), idx)
        invariant !Fails(cs, failAt) || idx <= failAt.value
        invariant packets == all[..idx]
      {
        var isLast := idx == |cs| - 1;
        var seqNo := videoSeq;
        videoSeq := (videoSeq + 1) % TWO16;
        NumAdd(old(videoSeq), idx, 1);
        if failAt == Some(idx) {
          return None;
        }
        packets := packets + [Rtp(Video, seqNo, ts, isLast, AbsTime(ntp), cs[idx])];
      }
      assert all[..|cs|] == all;
      return Some(packets);
    }

    /** The second loop: send and count. */
    method SendAll(encrypted: seq<Packet>, cs: seq<seq<byte>>)
      requires |encrypted| == |cs|
      modifies `wire, `videoPackets, `videoOctets
      ensures wire == old(wire) + encrypted
      ensures VideoSender() == CountAll(old(VideoSender()), cs)
    {
      for idx := 0 to |cs|
        invariant wire == old(wire) + encrypted[..idx]
        invariant VideoSender() == CountAll(old(VideoSender()), cs[..idx])
      {
        SendTo(encrypted[idx]);
        assert cs[..idx + 1][..idx] == cs[..idx];
        videoPackets := (videoPackets + 1) % TWO32;
        videoOctets := (videoOctets + |cs[idx]| % TWO32) % TWO32;
      }
      assert cs[..|cs|] == cs && encrypted[..|cs|] == encrypted;
    }

    method ResetMediaTrackState()
      modifies this
      ensures View() == Step(old(View()), Reset).0 && wire == old(wire)
    {
      firstAudio := true;
      firstVideo := true;
      mediaEpoch := None;
    }

    method CloseTransport()
      modifies this
      ensures View() == Step(old(View()), Close).0 && wire == old(wire)
    {
      if !closed {
        closed := true;
        srtpContext := false;
        mediaEpoch := None;
        udpSocket := false;
      }
    }
  }

  function Start(audioSeq: u16, videoSeq: u16): Tx {
    Tx(false, false, false, None, Sender(audioSeq, 0, true, 0, 0), Sender(videoSeq, 0, true, 0, 0))
  }
}
