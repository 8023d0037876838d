/** The play time of an Opus packet, from its table-of-contents byte, and the RTP clock
    increment recomputed from that play time (media/frame_reader.rs, direct_transport.rs). */
module OpusTiming {
  import opened Media

  const OPUS_FRAME_DURATION_MS := 20

  /** Samples per frame at 48 kHz, as the program's table lists them by configuration. */
  function BaseSamples(config: nat): nat {
    if config in {0, 4, 8} then 480
    else if config in {1, 5, 9} then 960
    else if config in {2, 6, 10} then 1920
    else if config in {3, 7, 11} then 2880
    else if config in {12, 14} then 480
    else if config in {13, 15} then 960
    else if config in {16, 20, 24, 28} then 120
    else if config in {17, 21, 25, 29} then 240
    else if config in {18, 22, 26, 30} then 480
    else 960
  }

  function FrameCount(pkt: seq<byte>): nat
    requires pkt != []
  {
    match pkt[0] % 4
    case 0 => 1
    case 3 => if |pkt| >= 2 && pkt[1] % 64 > 0 then pkt[1] % 64 else 1
    case _ => 2
  }

  /** Total samples as the program counts them: its sum stays inside a u32. */
  function TotalSamples(pkt: seq<byte>): nat
    requires pkt != []
  {
    BaseSamples(pkt[0] / 8 % 32) * FrameCount(pkt)
  }

  function SamplesToNanos(samples: nat): nat {
    samples * 1_000_000_000 / 48_000
  }

  function ParseOpusPacketDuration(pkt: seq<byte>): nat {
    if pkt == [] then OPUS_FRAME_DURATION_MS * 1_000_000
    else SamplesToNanos(TotalSamples(pkt))
  }

  /** The 48 kHz increment before the cast to u32. */
  function AudioTicks(nanos: nat): nat {
    nanos * 48_000 / 1_000_000_000
  }

  // ----- The same duration by the layout of section 3.1 of RFC 6716 -----

  /** Frame length in units of 2.5 ms: SILK, hybrid and CELT groups of configurations. */
  function FrameUnits(config: nat): nat {
    if config < 12 then [4, 8, 16, 24][config % 4]
    else if config < 16 then [4, 8][config % 2]
    else [1, 2, 4, 8][config % 4]
  }

  /** Frames in a packet by the two low bits of its first byte: one, two of a kind, or as many as
      the low six bits of the second byte say. */
  function StandardFrames(pkt: seq<byte>): nat
    requires pkt != []
  {
    var code := pkt[0] % 4;
    if code == 0 then 1
    else if code < 3 then 2
    else if |pkt| == 1 || pkt[1] % 64 == 0 then 1
    else pkt[1] % 64
  }

  /** Samples in a packet by the standard; an empty packet stands for one 20 ms frame, and a
      code 3 packet without a usable count for one frame. */
  function PacketSamples(pkt: seq<byte>): nat {
    if pkt == [] then 960 else 120 * FrameUnits(pkt[0] / 8) * StandardFrames(pkt)
  }

  lemma TableAgreesWithStandard(config: nat)
    requires config < 32
    ensures BaseSamples(config) == 120 * FrameUnits(config)
  {
    assert config % 4 == 0 || config % 4 == 1 || config % 4 == 2 || config % 4 == 3;
  }

  /** Both floor divisions together lose nothing exactly when the sample count is a
      multiple of three. */
  lemma NanosRoundTrip(samples: nat)
    ensures AudioTicks(SamplesToNanos(samples)) == samples <==> samples % 3 == 0
  {
    var q, r := samples / 3, samples % 3;
    assert samples * 1_000_000_000 == 48_000 * (62_500 * q) + r * 1_000_000_000;
    assert SamplesToNanos(samples) == 62_500 * q + r * 1_000_000_000 / 48_000;
    assert AudioTicks(62_500 * q + r * 1_000_000_000 / 48_000) == 3 * q + AudioTicks(r * 1_000_000_000 / 48_000);
  }

  lemma WholeUnits(units: nat)
    ensures SamplesToNanos(120 * units) == 2_500_000 * units
    ensures AudioTicks(2_500_000 * units) == 120 * units
  {
  }

  /** The RTP increment of a packet is exactly the number of samples the standard gives it,
      and neither the u32 sample count nor the u64 product nor the u32 cast can overflow. */
  lemma {:induction false} OpusTimingExact(pkt: seq<byte>)
    ensures AudioTicks(ParseOpusPacketDuration(pkt)) == PacketSamples(pkt)
    ensures 120 <= PacketSamples(pkt) <= 181_440 < TWO32
    ensures pkt != [] ==> TotalSamples(pkt) == PacketSamples(pkt) && TotalSamples(pkt) * 1_000_000_000 < TWO64
    ensures ParseOpusPacketDuration(pkt) * 3 == PacketSamples(pkt) * 62_500
  {
    if pkt != [] {
      var n := PacketUnits(pkt);
      WholeUnits(n);
    }
  }

  /** The packet in units of 2.5 ms. */
  lemma PacketUnits(pkt: seq<byte>) returns (n: nat)
    requires pkt != []
    ensures TotalSamples(pkt) == PacketSamples(pkt) == 120 * n && 1 <= n <= 1512
  {
    var units, count := FrameUnits(pkt[0] / 8), FrameCount(pkt);
    TableAgreesWithStandard(pkt[0] / 8);
    UnitsBound(units, count);
    n := units * count;
  }

  lemma UnitsBound(units: nat, count: nat)
    requires 1 <= units <= 24 && 1 <= count <= 63
    ensures 1 <= units * count <= 1512
    ensures 120 * units * count == 120 * (units * count)
  {
    assert units * count <= 24 * count;
  }
}
