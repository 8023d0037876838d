/** OpusFrameReader of media/frame_reader.rs: Ogg pages in, Opus packets out, one per call.

    The reader's fields form the value `Reader`. `Next` says what one call does to it;
    `OpusFrameReader.NextSample` is the program's loop, proved against `Next`. */
module OggDemux {
  import opened Media
  import opened OpusTiming

  const OGGS: seq<byte> := [0x4F, 0x67, 0x67, 0x53]
  const OPUS_HEAD: seq<byte> := [0x4F, 0x70, 0x75, 0x73, 0x48, 0x65, 0x61, 0x64]
  const OPUS_TAGS: seq<byte> := [0x4F, 0x70, 0x75, 0x73, 0x54, 0x61, 0x67, 0x73]

  /** Which of the two metadata packets has been passed. */
  datatype Flags = Flags(header: bool, tags: bool)

  datatype Demux = Demux(flags: Flags, queue: seq<seq<byte>>, current: seq<byte>)

  datatype Reader = Reader(input: seq<byte>, demux: Demux)

  const START := Demux(Flags(false, false), [], [])
  const PLAYING := Flags(true, true)

  // ----- One call of next_sample -----

  /** The end of a packet: drop a header or tags packet, drop an empty packet, queue the rest. */
  function Complete(d: Demux): Demux {
    var pkt := d.current;
    if !d.flags.header && OPUS_HEAD <= pkt then Demux(d.flags.(header := true), d.queue, [])
    else if !d.flags.tags && OPUS_TAGS <= pkt then Demux(d.flags.(tags := true), d.queue, [])
    else if pkt != [] then Demux(PLAYING, d.queue + [pkt], [])
    else d.(current := [])
  }

  function Segment(d: Demux, len: byte, chunk: seq<byte>): Demux {
    var d1 := d.(current := d.current + chunk);
    if len < 255 then Complete(d1) else d1
  }

  /** A whole page: its segment table and its payload. */
  function Segments(d: Demux, table: seq<byte>, payload: seq<byte>): Demux
    requires Sum(table) == |payload|
    decreases |table|
  {
    if table == [] then d
    else Segments(Segment(d, table[0], payload[..table[0]]), table[1..], payload[table[0]..])
  }

  datatype Page = NoPage(error: Error, left: seq<byte>) | Page(table: seq<byte>, payload: seq<byte>, rest: seq<byte>)

  function ReadPayload(table: seq<byte>, input: seq<byte>): (p: Page)
    ensures p.Page? ==> |p.rest| <= |input| && Sum(p.table) == |p.payload|
  {
    var size := Sum(table);
    if |input| < size then NoPage(File, []) else Page(table, input[..size], input[size..])
  }

  function ReadTable(segments: byte, input: seq<byte>): (p: Page)
    ensures p.Page? ==> |p.rest| <= |input| && Sum(p.table) == |p.payload|
  {
    if |input| < segments then NoPage(File, []) else ReadPayload(input[..segments], input[segments..])
  }

  /** Reads the next page; a failed read has used up the input. */
  function ReadPage(input: seq<byte>): (p: Page)
    ensures p.Page? ==> |p.rest| < |input| && Sum(p.table) == |p.payload|
  {
    if |input| < 27 then NoPage(File, [])
    else if input[..4] != OGGS then NoPage(Internal, input[27..])
    else ReadTable(input[26], input[27..])
  }

  function Next(r: Reader): (res: (Result<Sample>, Reader))
    ensures res.0.Ok? ==> |res.1.input| < |r.input|
                          || (res.1.input == r.input && |res.1.demux.queue| < |r.demux.queue|)
    decreases |r.input|
  {
    if r.demux.queue != [] then
      var pkt := r.demux.queue[0];
      (Ok(Sample(pkt, ParseOpusPacketDuration(pkt))), r.(demux := r.demux.(queue := r.demux.queue[1..])))
    else match ReadPage(r.input)
      case NoPage(e, left) => (Err(e), r.(input := left))
      case Page(table, payload, rest) => Next(Reader(rest, Segments(r.demux, table, payload)))
  }

  class OpusFrameReader {
    var reader: seq<byte> // the bytes not yet read
    var skippedHeader: bool
    var skippedTags: bool
    var queue: seq<seq<byte>>
    var currentPacket: seq<byte>

    ghost function Demuxer(): Demux
      reads this
    {
      Demux(Flags(skippedHeader, skippedTags), queue, currentPacket)
    }

    ghost function View(): Reader
      reads this
    {
      Reader(reader, Demuxer())
    }

    constructor (reader: seq<byte>)
      ensures View() == Reader(reader, START)
    {
      this.reader := reader;
      skippedHeader, skippedTags := false, false;
      queue, currentPacket := [], [];
    }

    /** The reads of one page: its 27 header bytes, its segment table, its payload. */
    method ReadOggPage() returns (p: Page)
      modifies `reader
      ensures p == ReadPage(old(reader))
      ensures reader == match p case NoPage(_, left) => left case Page(_, _, rest) => rest
    {
      ghost var input := reader;
      var header;
      header, reader := ReadExact(reader, 27);
      if header == None {
        return NoPage(File, reader);
      }
      assert header.value[..4] == input[..4];
      if header.value[..4] != OGGS {
        return NoPage(Internal, reader);
      }
      var pageSegments := header.value[26];
      var segmentTable;
      segmentTable, reader := ReadExact(reader, pageSegments);
      if segmentTable == None {
        return NoPage(File, reader);
      }
      var payloadSize := Sum(segmentTable.value);
      var payload;
      payload, reader := ReadExact(reader, payloadSize);
      if payload == None {
        return NoPage(File, reader);
      }
      p := Page(segmentTable.value, payload.value, reader);
    }

    method NextSample() returns (r: Result<Sample>)
      modifies this
      ensures (r, View()) == Next(old(View()))
    {
      while true
        invariant Next(View()) == Next(old(View()))
        decreases |reader|
      {
        if queue != [] {
          var pkt := queue[0];
          queue := queue[1..];
          return Ok(Sample(pkt, ParseOpusPacketDuration(pkt)));
        }
        var p := ReadOggPage();
        if p.NoPage? {
          return Err(p.error);
        }
        Lacing(p.table, p.payload);
      }
    }

    /** The loop over the segment table. The guard on `end` is the program's; it never fails. */
    method Lacing(table: seq<byte>, payload: seq<byte>)
      requires Sum(table) == |payload|
      modifies this`currentPacket, this`queue, this`skippedHeader, this`skippedTags
      ensures Demuxer() == Segments(old(Demuxer()), table, payload)
    {
      var offset := 0;
      for k := 0 to |table|
        invariant 0 <= offset <= |payload| && Sum(table[k..]) == |payload| - offset
        invariant Segments(Demuxer(), table[k..], payload[offset..]) == Segments(old(Demuxer()), table, payload)
      {
        ghost var d := Demuxer();
        ghost var restTable, restPayload := table[k..], payload[offset..];
        var segLen := table[k];
        var end := offset + segLen;
        assert restTable[1..] == table[k + 1..];
        assert end <= |payload|;
        assert restPayload[..segLen] == payload[offset..end] && restPayload[segLen..] == payload[end..];
        if end <= |payload| {
          currentPacket := currentPacket + payload[offset..end];
          offset := end;
        }
        if segLen < 255 {
          var pkt := currentPacket;
          currentPacket := [];
          if !skippedHeader && OPUS_HEAD <= pkt {
            skippedHeader := true;
          } else if !skippedTags && OPUS_TAGS <= pkt {
            skippedTags := true;
          } else if pkt != [] {
            skippedHeader := true;
            skippedTags := true;
            queue := queue + [pkt];
          }
        }
        assert Demuxer() == Segment(d, segLen, restPayload[..segLen]);
      }
    }
  }

  // ----- All the calls up to the first error -----

  datatype Drained = Drained(samples: seq<Sample>, error: Error)

  function Drain(r: Reader): Drained
    decreases |r.input|, |r.demux.queue|
  {
    match Next(r)
    case (Err(e), _) => Drained([], e)
    case (Ok(s), r') => var rest := Drain(r'); Drained([s] + rest.samples, rest.error)
  }

  function Samples(packets: seq<seq<byte>>): (ss: seq<Sample>)
    ensures |ss| == |packets|
    ensures forall i :: 0 <= i < |ss| ==> ss[i] == Sample(packets[i], ParseOpusPacketDuration(packets[i]))
  {
    seq(|packets|, i requires 0 <= i < |packets| => Sample(packets[i], ParseOpusPacketDuration(packets[i])))
  }

  // ----- Reference: lacing of section 6 of RFC 3533, without pages -----

  /** Packets completed by a run of segments, and the packet still open at its end. */
  datatype Unlaced = Unlaced(packets: seq<seq<byte>>, open: seq<byte>)

  function Unlace(open: seq<byte>, table: seq<byte>, payload: seq<byte>): Unlaced
    requires Sum(table) == |payload|
    decreases |table|
  {
    if table == [] then Unlaced([], open)
    else
      var pkt := open + payload[..table[0]];
      if table[0] == 255 then Unlace(pkt, table[1..], payload[table[0]..])
      else
        var u := Unlace([], table[1..], payload[table[0]..]);
        u.(packets := [pkt] + u.packets)
  }

  datatype Verdict = Header | Tags | Empty | Audio

  function Classify(f: Flags, pkt: seq<byte>): Verdict {
    if !f.header && OPUS_HEAD <= pkt then Header
    else if !f.tags && OPUS_TAGS <= pkt then Tags
    else if pkt == [] then Empty
    else Audio
  }

  function After(f: Flags, v: Verdict): Flags {
    match v
    case Header => f.(header := true)
    case Tags => f.(tags := true)
    case Empty => f
    case Audio => PLAYING
  }

  function FlagsAfter(f: Flags, packets: seq<seq<byte>>): Flags
    decreases |packets|
  {
    if packets == [] then f else FlagsAfter(After(f, Classify(f, packets[0])), packets[1..])
  }

  /** The packets handed out, in order. */
  function Delivered(f: Flags, packets: seq<seq<byte>>): seq<seq<byte>>
    decreases |packets|
  {
    if packets == [] then []
    else
      var v := Classify(f, packets[0]);
      (if v == Audio then [packets[0]] else []) + Delivered(After(f, v), packets[1..])
  }

  /** The packets thrown away, in order. */
  function Dropped(f: Flags, packets: seq<seq<byte>>): seq<seq<byte>>
    decreases |packets|
  {
    if packets == [] then []
    else
      var v := Classify(f, packets[0]);
      (if v == Audio then [] else [packets[0]]) + Dropped(After(f, v), packets[1..])
  }

  /** Tables and payloads of all the whole pages at the front of the input, joined, and the
      error that ends them. */
  datatype Stream = Stream(table: seq<byte>, payload: seq<byte>, error: Error)

  function Pages(input: seq<byte>): (s: Stream)
    ensures Sum(s.table) == |s.payload|
    decreases |input|
  {
    match ReadPage(input)
    case NoPage(e, _) => Stream([], [], e)
    case Page(table, payload, rest) =>
      var s := Pages(rest);
      SumConcat(table, s.table);
      Stream(table + s.table, payload + s.payload, s.error)
  }

  /** The first segment of a run. */
  lemma UnlaceCons(open: seq<byte>, n: byte, chunk: seq<byte>, table: seq<byte>, payload: seq<byte>)
    requires |chunk| == n && Sum(table) == |payload|
    ensures Sum([n] + table) == |chunk + payload|
    ensures Unlace(open, [n] + table, chunk + payload)
            == if n == 255 then Unlace(open + chunk, table, payload)
               else
                 var u := Unlace([], table, payload);
                 Unlaced([open + chunk] + u.packets, u.open)
  {
    assert ([n] + table)[1..] == table;
    assert (chunk + payload)[..n] == chunk && (chunk + payload)[n..] == payload;
  }

  /** Unlacing two runs in a row, the packet left open by the first carried into the second. */
  ghost predicate Joins(open: seq<byte>, t1: seq<byte>, p1: seq<byte>, t2: seq<byte>, p2: seq<byte>)
    requires Sum(t1) == |p1| && Sum(t2) == |p2|
  {
    && Sum(t1 + t2) == |p1 + p2|
    && var u1 := Unlace(open, t1, p1);
       var u2 := Unlace(u1.open, t2, p2);
       Unlace(open, t1 + t2, p1 + p2) == Unlaced(u1.packets + u2.packets, u2.open)
  }

  lemma ConsAssoc(n: byte, table: seq<byte>, t2: seq<byte>, chunk: seq<byte>, payload: seq<byte>, p2: seq<byte>)
    ensures [n] + table + t2 == [n] + (table + t2) && chunk + payload + p2 == chunk + (payload + p2)
  {
    Assoc([n], table, t2);
    Assoc(chunk, payload, p2);
  }

  lemma JoinsLong(open: seq<byte>, chunk: seq<byte>, table: seq<byte>, payload: seq<byte>, t2: seq<byte>, p2: seq<byte>)
    requires |chunk| == 255 && Sum(table) == |payload| && Sum(t2) == |p2| && Joins(open + chunk, table, payload, t2, p2)
    ensures Sum([255] + table) == |chunk + payload| && Joins(open, [255] + table, chunk + payload, t2, p2)
  {
    UnlaceCons(open, 255, chunk, table, payload);
    UnlaceCons(open, 255, chunk, table + t2, payload + p2);
    ConsAssoc(255, table, t2, chunk, payload, p2);
  }

  lemma JoinsShort(open: seq<byte>, n: byte, chunk: seq<byte>, table: seq<byte>, payload: seq<byte>, t2: seq<byte>, p2: seq<byte>)
    requires n != 255 && |chunk| == n && Sum(table) == |payload| && Sum(t2) == |p2| && Joins([], table, payload, t2, p2)
    ensures Sum([n] + table) == |chunk + payload| && Joins(open, [n] + table, chunk + payload, t2, p2)
  {
    UnlaceCons(open, n, chunk, table, payload);
    UnlaceCons(open, n, chunk, table + t2, payload + p2);
    ConsAssoc(n, table, t2, chunk, payload, p2);
    var u1 := Unlace([], table, payload);
    Assoc([open + chunk], u1.packets, Unlace(u1.open, t2, p2).packets);
  }

  lemma {:induction false} UnlaceConcat(open: seq<byte>, t1: seq<byte>, p1: seq<byte>, t2: seq<byte>, p2: seq<byte>)
    requires Sum(t1) == |p1| && Sum(t2) == |p2|
    ensures Joins(open, t1, p1, t2, p2)
    decreases |t1|
  {
    if t1 == [] {
      assert t1 + t2 == t2 && p1 + p2 == p2;
    } else {
      var n, chunk := t1[0], p1[..t1[0]];
      UnlaceConcat(if n == 255 then open + chunk else [], t1[1..], p1[n..], t2, p2);
      assert t1 == [n] + t1[1..] && p1 == chunk + p1[n..];
      if n == 255 {
        JoinsLong(open, chunk, t1[1..], p1[n..], t2, p2);
      } else {
        JoinsShort(open, n, chunk, t1[1..], p1[n..], t2, p2);
      }
    }
  }

  lemma {:induction false} DeliveredConcat(f: Flags, a: seq<seq<byte>>, b: seq<seq<byte>>)
    ensures Delivered(f, a + b) == Delivered(f, a) + Delivered(FlagsAfter(f, a), b)
    ensures FlagsAfter(f, a + b) == FlagsAfter(FlagsAfter(f, a), b)
    decreases |a|
  {
    if a == [] {
      assert a + b == b;
    } else {
      assert (a + b)[1..] == a[1..] + b;
      DeliveredConcat(After(f, Classify(f, a[0])), a[1..], b);
    }
  }

  lemma CompleteClassifies(d: Demux)
    ensures var v := Classify(d.flags, d.current);
            Complete(d) == Demux(After(d.flags, v), d.queue + if v == Audio then [d.current] else [], [])
  {
    assert d.queue + [] == d.queue;
  }

  /** What the in-place segment loop computes, in terms of the reference. */
  lemma {:induction false} SegmentsUnlace(d: Demux, table: seq<byte>, payload: seq<byte>)
    requires Sum(table) == |payload|
    ensures var u := Unlace(d.current, table, payload);
            Segments(d, table, payload)
              == Demux(FlagsAfter(d.flags, u.packets), d.queue + Delivered(d.flags, u.packets), u.open)
    decreases |table|
  {
    if table == [] {
      assert d.queue + [] == d.queue;
    } else {
      var n := table[0];
      var d1 := Segment(d, n, payload[..n]);
      SegmentsUnlace(d1, table[1..], payload[n..]);
      if n < 255 {
        var pkt := d.current + payload[..n];
        CompleteClassifies(d.(current := pkt));
        var rest := Unlace([], table[1..], payload[n..]).packets;
        DeliveredFirst(d.flags, pkt, rest, d.queue);
      }
    }
  }

  lemma DeliveredFirst(f: Flags, pkt: seq<byte>, rest: seq<seq<byte>>, queue: seq<seq<byte>>)
    ensures var v := Classify(f, pkt);
            && FlagsAfter(f, [pkt] + rest) == FlagsAfter(After(f, v), rest)
            && queue + Delivered(f, [pkt] + rest) == queue + (if v == Audio then [pkt] else []) + Delivered(After(f, v), rest)
  {
    assert ([pkt] + rest)[1..] == rest;
  }

  /** What a reader still owes its caller, from its fields and the remaining input. */
  function Owed(r: Reader): Drained {
    var s := Pages(r.input);
    var u := Unlace(r.demux.current, s.table, s.payload);
    Drained(Samples(r.demux.queue + Delivered(r.demux.flags, u.packets)), s.error)
  }

  /** Two runs of packets one after the other owe the same as both at once. */
  lemma OwedInTurn(f: Flags, queue: seq<seq<byte>>, a: seq<seq<byte>>, b: seq<seq<byte>>)
    ensures queue + Delivered(f, a + b) == queue + Delivered(f, a) + Delivered(FlagsAfter(f, a), b)
  {
    DeliveredConcat(f, a, b);
    Assoc(queue, Delivered(f, a), Delivered(FlagsAfter(f, a), b));
  }

  /** Reading a page moves packets from the owed part of the input to the queue, no more. */
  lemma PageOwed(r: Reader)
    requires ReadPage(r.input).Page?
    ensures var p := ReadPage(r.input);
            Owed(r) == Owed(Reader(p.rest, Segments(r.demux, p.table, p.payload)))
  {
    var p := ReadPage(r.input);
    var s := Pages(p.rest);
    SegmentsUnlace(r.demux, p.table, p.payload);
    UnlaceConcat(r.demux.current, p.table, p.payload, s.table, s.payload);
    var u1 := Unlace(r.demux.current, p.table, p.payload);
    OwedInTurn(r.demux.flags, r.demux.queue, u1.packets, Unlace(u1.open, s.table, s.payload).packets);
  }

  lemma QueueOwed(r: Reader)
    requires r.demux.queue != []
    ensures var rest := Owed(r.(demux := r.demux.(queue := r.demux.queue[1..])));
            var pkt := r.demux.queue[0];
            Owed(r) == Drained([Sample(pkt, ParseOpusPacketDuration(pkt))] + rest.samples, rest.error)
  {
    var u := Unlace(r.demux.current, Pages(r.input).table, Pages(r.input).payload);
    var more := Delivered(r.demux.flags, u.packets);
    assert r.demux.queue + more == [r.demux.queue[0]] + (r.demux.queue[1..] + more);
  }

  /** Repeated calls return exactly what the joined tables and payloads owe: where pages
      begin and end makes no difference. */
  lemma {:induction false} DrainIsOwed(r: Reader)
    ensures Drain(r) == Owed(r)
    decreases |r.input|, |r.demux.queue|
  {
    if r.demux.queue != [] {
      var r1 := r.(demux := r.demux.(queue := r.demux.queue[1..]));
      DrainIsOwed(r1);
      QueueOwed(r);
    } else {
      match ReadPage(r.input)
      case NoPage(_, _) =>
      case Page(table, payload, rest) =>
        var r1 := Reader(rest, Segments(r.demux, table, payload));
        assert Next(r) == Next(r1);
        assert Drain(r) == Drain(r1);
        DrainIsOwed(r1);
        PageOwed(r);
    }
  }
}
