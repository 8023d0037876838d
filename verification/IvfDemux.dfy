/** VP8FrameReader of media/frame_reader.rs: an IVF file in, VP8 frames out, one per call. */
module IvfDemux {
  import opened Media

  const DKIF: seq<byte> := [0x44, 0x4B, 0x49, 0x46]
  const DEFAULT_FRAME_DURATION: nat := 33_333_333

  datatype Reader = Reader(input: seq<byte>, headerRead: bool, frameDuration: nat)

  function Fresh(input: seq<byte>): Reader {
    Reader(input, false, DEFAULT_FRAME_DURATION)
  }

  /** u32::from_le_bytes */
  function FromLe(b: seq<byte>): (n: nat)
    requires |b| == 4
    ensures n < TWO32
  {
    var (b0: int, b1: int, b2: int, b3: int) := (b[0], b[1], b[2], b[3]);
    b0 + 256 * b1 + 65_536 * b2 + 16_777_216 * b3
  }

  function ToLe(n: nat): seq<byte>
    requires n < TWO32
  {
    [n % 256, n / 256 % 256, n / 65_536 % 256, n / 16_777_216]
  }

  lemma LeRoundTrip(n: nat)
    requires n < TWO32
    ensures FromLe(ToLe(n)) == n
  {
    var a := n / 256;
    var b := n / 65_536;
    var c := n / 16_777_216;
    assert n == 256 * a + n % 256;
    assert a == 256 * b + a % 256;
    assert b == 256 * c + b % 256;
  }

  /** Byte i counts 256^i, whatever the four bytes are. */
  lemma LittleEndian(b: seq<byte>)
    requires |b| == 4
    ensures FromLe(b) % 256 == b[0] && FromLe(b) / 256 % 256 == b[1]
    ensures FromLe(b) / 65_536 % 256 == b[2] && FromLe(b) / 16_777_216 == b[3]
    ensures ToLe(FromLe(b)) == b
  {
    var (b0: int, b1: int, b2: int, b3: int) := (b[0], b[1], b[2], b[3]);
    var n := FromLe(b);
    assert n == b0 + 256 * (b1 + 256 * (b2 + 256 * b3));
    assert n / 256 == b1 + 256 * (b2 + 256 * b3);
    assert n / 65_536 == b2 + 256 * b3;
    assert n / 16_777_216 == b3;
  }

  /** num / den seconds in whole nanoseconds. */
  function TimebaseNanos(den: nat, num: nat): nat
    requires den > 0
  {
    num * 1_000_000_000 / den
  }

  /** Nanoseconds per frame by the file header. */
  function FrameDuration(den: nat, num: nat): nat {
    if den > 0 && num > 0 then TimebaseNanos(den, num) else DEFAULT_FRAME_DURATION
  }

  /** The time base in nanoseconds, rounded down; a header with a zero in it means 30 frames a second. */
  lemma DurationOfHeader(den: nat, num: nat)
    ensures den > 0 && num > 0 ==>
              FrameDuration(den, num) * den <= num * 1_000_000_000 < (FrameDuration(den, num) + 1) * den
    ensures den == 0 || num == 0 ==> FrameDuration(den, num) == 33_333_333
  {
    if den > 0 && num > 0 {
      var lost := num * 1_000_000_000 % den;
      assert num * 1_000_000_000 == TimebaseNanos(den, num) * den + lost;
    }
  }

  // ----- One call of next_sample -----

  function ReadHeader(r: Reader): (Option<Error>, Reader) {
    if r.headerRead then (None, r)
    else if |r.input| < 32 then (Some(File), r.(input := []))
    else if r.input[..4] != DKIF then (Some(Internal), r.(input := r.input[32..]))
    else
      var den, num := FromLe(r.input[16..20]), FromLe(r.input[20..24]);
      (None, Reader(r.input[32..], true, if den > 0 && num > 0 then TimebaseNanos(den, num) else r.frameDuration))
  }

  function Next(r: Reader): (res: (Result<Sample>, Reader))
    ensures res.0.Ok? ==> |res.1.input| < |r.input|
  {
    match ReadHeader(r)
    case (Some(e), r1) => (Err(e), r1)
    case (None, r1) =>
      if |r1.input| < 12 then (Err(File), r1.(input := []))
      else
        var size := FromLe(r1.input[..4]);
        if |r1.input| < 12 + size then (Err(File), r1.(input := []))
        else (Ok(Sample(r1.input[12..12 + size], r1.frameDuration)), r1.(input := r1.input[12 + size..]))
  }

  class VP8FrameReader {
    var reader: seq<byte> // the bytes not yet read
    var headerRead: bool
    var frameDuration: nat

    ghost function View(): Reader
      reads this
    {
      Reader(reader, headerRead, frameDuration)
    }

    constructor (reader: seq<byte>)
      ensures View() == Fresh(reader)
    {
      this.reader := reader;
      headerRead := false;
      frameDuration := DEFAULT_FRAME_DURATION;
    }

    /** The file header, before the first frame only. */
    method ReadIvfHeader() returns (e: Option<Error>)
      modifies this
      ensures (e, View()) == ReadHeader(old(View()))
    {
      if headerRead {
        return None;
      }
      ghost var input := reader;
      var ivfHeader;
      ivfHeader, reader := ReadExact(reader, 32);
      if ivfHeader == None {
        return Some(File);
      }
      var h := ivfHeader.value;
      assert h[..4] == input[..4] && h[16..20] == input[16..20] && h[20..24] == input[20..24];
      if h[..4] != DKIF {
        return Some(Internal);
      }
      var timebaseDen, timebaseNum := FromLe(h[16..20]), FromLe(h[20..24]);
      if timebaseDen > 0 && timebaseNum > 0 {
        frameDuration := TimebaseNanos(timebaseDen, timebaseNum);
      }
      headerRead := true;
      return None;
    }

    method NextSample() returns (r: Result<Sample>)
      modifies this
      ensures (r, View()) == Next(old(View()))
    {
      var e := ReadIvfHeader();
      if e.Some? {
        return Err(e.value);
      }
      ghost var body := reader;
      var frameHeader;
      frameHeader, reader := ReadExact(reader, 12);
      if frameHeader == None {
        return Err(File);
      }
      assert frameHeader.value[..4] == body[..4];
      var frameSize := FromLe(frameHeader.value[..4]);
      var frameBytes;
      frameBytes, reader := ReadExact(reader, frameSize);
      if frameBytes == None {
        return Err(File);
      }
      assert frameBytes.value == body[12..12 + frameSize];
      return Ok(Sample(frameBytes.value, frameDuration));
    }
  }

  // ----- All the calls up to the first error -----

  datatype Drained = Drained(samples: seq<Sample>, error: Error)

  function Drain(r: Reader): Drained
    decreases |r.input|
  {
    match Next(r)
    case (Err(e), _) => Drained([], e)
    case (Ok(s), r') => var rest := Drain(r'); Drained([s] + rest.samples, rest.error)
  }

  // ----- The muxer -----

  /** The 32-byte file header; `a` and `b` are fields the reader skips. */
  datatype FileHeader = FileHeader(a: seq<byte>, den: nat, num: nat, b: seq<byte>) {
    predicate Valid() {
      |a| == 12 && |b| == 8 && den < TWO32 && num < TWO32
    }

    function Encode(): seq<byte>
      requires Valid()
    {
      [0x44, 0x4B, 0x49, 0x46] + a + ToLe(den) + ToLe(num) + b
    }
  }

  /** A frame and its presentation timestamp, which the reader skips. */
  datatype Frame = Frame(pts: seq<byte>, data: seq<byte>) {
    predicate Valid() {
      |pts| == 8 && |data| < TWO32
    }

    function Encode(): seq<byte>
      requires Valid()
    {
      ToLe(|data|) + pts + data
    }
  }

  ghost predicate AllValid(frames: seq<Frame>) {
    forall f :: f in frames ==> f.Valid()
  }

  function Encode(frames: seq<Frame>): seq<byte>
    requires AllValid(frames)
  {
    if frames == [] then [] else frames[0].Encode() + Encode(frames[1..])
  }

  function Samples(frames: seq<Frame>, duration: nat): (ss: seq<Sample>)
    ensures |ss| == |frames|
    ensures forall i :: 0 <= i < |ss| ==> ss[i] == Sample(frames[i].data, duration)
  {
    seq(|frames|, i requires 0 <= i < |frames| => Sample(frames[i].data, duration))
  }

  lemma ReadFrame(f: Frame, rest: seq<byte>, duration: nat)
    requires f.Valid()
    ensures Next(Reader(f.Encode() + rest, true, duration))
            == (Ok(Sample(f.data, duration)), Reader(rest, true, duration))
  {
    var input := f.Encode() + rest;
    assert input[..4] == ToLe(|f.data|);
    LeRoundTrip(|f.data|);
    assert input[12..12 + |f.data|] == f.data;
    assert input[12 + |f.data|..] == rest;
  }

  /** No whole frame begins here: the frame header is cut off, or the data it announces. */
  predicate NoFrame(tail: seq<byte>) {
    |tail| < 12 || (var (b0: int, b1: int, b2: int, b3: int) := (tail[0], tail[1], tail[2], tail[3]);
                    |tail| < 12 + b0 + 0x100 * b1 + 0x1_0000 * b2 + 0x100_0000 * b3)
  }

  lemma {:induction false} DrainFrames(frames: seq<Frame>, tail: seq<byte>, duration: nat)
    requires AllValid(frames) && NoFrame(tail)
    ensures Drain(Reader(Encode(frames) + tail, true, duration)) == Drained(Samples(frames, duration), File)
  {
    if frames == [] {
      EmptyEnds(tail);
    } else {
      Assoc(frames[0].Encode(), Encode(frames[1..]), tail);
      ReadFrame(frames[0], Encode(frames[1..]) + tail, duration);
      DrainFrames(frames[1..], tail, duration);
      assert Samples(frames, duration) == [Sample(frames[0].data, duration)] + Samples(frames[1..], duration);
    }
  }

  /** The header is read in the first call only, and fixes the duration for all of them. */
  lemma {:induction false} HeaderThenFrames(h: FileHeader, body: seq<byte>)
    requires h.Valid()
    ensures Drain(Fresh(h.Encode() + body)) == Drain(Reader(body, true, FrameDuration(h.den, h.num)))
  {
    var input := h.Encode() + body;
    assert input[..4] == DKIF && input[16..20] == ToLe(h.den) && input[20..24] == ToLe(h.num);
    assert input[32..] == body;
    LeRoundTrip(h.den);
    LeRoundTrip(h.num);
    assert Next(Fresh(input)) == Next(Reader(body, true, FrameDuration(h.den, h.num)));
  }

  /** The reader inverts the muxer: any timebase, any frames, empty ones included. */
  lemma {:induction false} DemuxInvertsMux(h: FileHeader, frames: seq<Frame>)
    requires h.Valid() && AllValid(frames)
    ensures Drain(Fresh(h.Encode() + Encode(frames))) == Drained(Samples(frames, FrameDuration(h.den, h.num)), File)
  {
    HeaderThenFrames(h, Encode(frames));
    DrainFrames(frames, [], FrameDuration(h.den, h.num));
    EmptyEnds(Encode(frames));
  }

  /** What cannot be a file: too short for a header, or beginning with other than the four magic bytes. */
  lemma NotAFile(input: seq<byte>)
    ensures |input| < 32 ==> Drain(Fresh(input)) == Drained([], File)
    ensures |input| >= 32 && input[..4] != [0x44, 0x4B, 0x49, 0x46] ==> Drain(Fresh(input)) == Drained([], Internal)
  {
  }

  /** After an error: cut off, a file stays so for good; 32 bytes that are no header are given up, and the
      next call looks for a header behind them. */
  lemma AfterError(r: Reader)
    ensures Next(r).0 == Err(File) ==> Next(r).1.input == [] && Next(Next(r).1) == (Err(File), Next(r).1)
    ensures Next(r).0 == Err(Internal) ==>
              !r.headerRead && |r.input| >= 32 && Next(r).1 == Reader(r.input[32..], false, r.frameDuration)
  {
  }

  ghost predicate Body(body: seq<byte>, frames: seq<Frame>, tail: seq<byte>) {
    AllValid(frames) && NoFrame(tail) && body == Encode(frames) + tail
  }

  /** The frame a body begins with, if any. */
  lemma FirstFrame(body: seq<byte>) returns (f: Frame, rest: seq<byte>)
    requires !NoFrame(body)
    ensures f.Valid() && body == f.Encode() + rest && |rest| < |body|
  {
    var size := FromLe(body[..4]);
    f, rest := Frame(body[4..12], body[12..12 + size]), body[12 + size..];
    LittleEndian(body[..4]);
  }

  lemma {:induction false} EveryBody(body: seq<byte>)
    ensures exists frames, tail :: Body(body, frames, tail)
    decreases |body|
  {
    if NoFrame(body) {
      EmptyEnds(body);
      assert Body(body, [], body);
    } else {
      var f, rest := FirstFrame(body);
      EveryBody(rest);
      var frames, tail :| Body(rest, frames, tail);
      var all := [f] + frames;
      assert all[1..] == frames;
      Assoc(f.Encode(), Encode(frames), tail);
      assert Body(body, all, tail);
    }
  }

  lemma EveryHeader(head: seq<byte>) returns (h: FileHeader)
    requires |head| == 32 && head[..4] == [0x44, 0x4B, 0x49, 0x46]
    ensures h.Valid() && h.Encode() == head
  {
    h := FileHeader(head[4..16], FromLe(head[16..20]), FromLe(head[20..24]), head[24..]);
    LittleEndian(head[16..20]);
    LittleEndian(head[20..24]);
    assert head == head[..4] + head[4..16] + head[16..20] + head[20..24] + head[24..];
  }

  /** Every other input is a file header, whole frames and less than one frame more; exactly those frames
      are read, and then a File error. */
  lemma EveryFile(input: seq<byte>)
    requires |input| >= 32 && input[..4] == [0x44, 0x4B, 0x49, 0x46]
    ensures exists h: FileHeader, frames, tail ::
              && h.Valid() && Body(input[32..], frames, tail) && input == h.Encode() + input[32..]
              && Drain(Fresh(input)) == Drained(Samples(frames, FrameDuration(h.den, h.num)), File)
  {
    var h := EveryHeader(input[..32]);
    EveryBody(input[32..]);
    var frames, tail :| Body(input[32..], frames, tail);
    assert input == h.Encode() + input[32..];
    HeaderThenFrames(h, input[32..]);
    DrainFrames(frames, tail, FrameDuration(h.den, h.num));
    assert h.Valid() && Body(input[32..], frames, tail);
  }

  lemma HeaderPrefix(r: Reader, more: seq<byte>)
    requires ReadHeader(r).0 == None
    ensures ReadHeader(r.(input := r.input + more)) == (None, ReadHeader(r).1.(input := ReadHeader(r).1.input + more))
  {
    var whole := r.input + more;
    if !r.headerRead {
      assert whole[..4] == r.input[..4];
      assert whole[16..20] == r.input[16..20] && whole[20..24] == r.input[20..24];
      assert whole[32..] == r.input[32..] + more;
    }
  }

  lemma NextPrefix(r: Reader, more: seq<byte>)
    requires Next(r).0.Ok?
    ensures Next(r.(input := r.input + more)) == (Next(r).0, Next(r).1.(input := Next(r).1.input + more))
  {
    HeaderPrefix(r, more);
    var part := ReadHeader(r).1.input;
    var whole := part + more;
    assert whole[..4] == part[..4];
    var size := FromLe(part[..4]);
    assert whole[12..12 + size] == part[12..12 + size];
    assert whole[12 + size..] == part[12 + size..] + more;
  }

  lemma {:induction false} DrainPrefix(r: Reader, more: seq<byte>)
    ensures Drain(r).samples <= Drain(r.(input := r.input + more)).samples
    decreases |r.input|
  {
    if Next(r).0.Ok? {
      NextPrefix(r, more);
      DrainPrefix(Next(r).1, more);
    }
  }

  /** Cutting the input off anywhere only shortens the list of frames. */
  lemma TruncationIsPrefix(input: seq<byte>, more: seq<byte>)
    ensures Drain(Fresh(input)).samples <= Drain(Fresh(input + more)).samples
  {
    DrainPrefix(Fresh(input), more);
  }
}
