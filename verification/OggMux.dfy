/** A muxer after section 6 of RFC 3533 and section 3 of RFC 7845, and what the demultiplexer
    of OggDemux makes of its output. */
module OggMux {
  import opened Media
  import opened OggDemux

  /** Segment lengths of one packet: runs of 255, then one shorter segment, possibly empty. */
  function Lace(len: nat): (table: seq<byte>)
    ensures Sum(table) == len
  {
    if len < 255 then [len] else [255] + Lace(len - 255)
  }

  function LaceAll(packets: seq<seq<byte>>): (table: seq<byte>)
    ensures Sum(table) == |Flatten(packets)|
  {
    if packets == [] then []
    else
      SumConcat(Lace(|packets[0]|), LaceAll(packets[1..]));
      Lace(|packets[0]|) + LaceAll(packets[1..])
  }

  /** A page before serialisation: the 22 header bytes the demultiplexer skips (version, flags,
      granule position, serial and sequence numbers, checksum), the table and the payload. */
  datatype OggPage = OggPage(mid: seq<byte>, table: seq<byte>, payload: seq<byte>) {
    predicate Valid() {
      |mid| == 22 && |table| <= 255 && Sum(table) == |payload|
    }

    function Encode(): seq<byte>
      requires Valid()
    {
      [0x4F, 0x67, 0x67, 0x53] + mid + [|table|] + table + payload
    }
  }

  ghost predicate AllValid(pages: seq<OggPage>) {
    forall p :: p in pages ==> p.Valid()
  }

  function Encode(pages: seq<OggPage>): seq<byte>
    requires AllValid(pages)
  {
    if pages == [] then [] else pages[0].Encode() + Encode(pages[1..])
  }

  function Tables(pages: seq<OggPage>): seq<byte> {
    if pages == [] then [] else pages[0].table + Tables(pages[1..])
  }

  function Payloads(pages: seq<OggPage>): seq<byte> {
    if pages == [] then [] else pages[0].payload + Payloads(pages[1..])
  }

  /** `pages` is some way to cut the laced `packets` into pages. */
  ghost predicate Muxes(pages: seq<OggPage>, packets: seq<seq<byte>>) {
    AllValid(pages) && Tables(pages) == LaceAll(packets) && Payloads(pages) == Flatten(packets)
  }

  lemma ReadEncoded(p: OggPage, rest: seq<byte>)
    requires p.Valid()
    ensures ReadPage(p.Encode() + rest) == Page(p.table, p.payload, rest)
  {
    var input := p.Encode() + rest;
    assert input[..4] == OGGS && input[26] == |p.table|;
    assert input[27..] == p.table + (p.payload + rest);
    assert (p.table + (p.payload + rest))[..|p.table|] == p.table;
    assert (p.table + (p.payload + rest))[|p.table|..] == p.payload + rest;
    assert (p.payload + rest)[..|p.payload|] == p.payload && (p.payload + rest)[|p.payload|..] == rest;
  }

  function Before(table: seq<byte>, payload: seq<byte>, s: Stream): Stream {
    Stream(table + s.table, payload + s.payload, s.error)
  }

  lemma {:induction false} PagesFirst(page: OggPage, rest: seq<byte>)
    requires page.Valid()
    ensures Pages(page.Encode() + rest) == Before(page.table, page.payload, Pages(rest))
  {
    ReadEncoded(page, rest);
  }

  lemma BeforeBefore(t1: seq<byte>, p1: seq<byte>, t2: seq<byte>, p2: seq<byte>, s: Stream)
    ensures Before(t1, p1, Before(t2, p2, s)) == Before(t1 + t2, p1 + p2, s)
    ensures Before([], [], s) == s
  {
    assert t1 + (t2 + s.table) == t1 + t2 + s.table && p1 + (p2 + s.payload) == p1 + p2 + s.payload;
    assert [] + s.table == s.table && [] + s.payload == s.payload;
  }

  /** Whole pages, then anything: the pages come first. */
  lemma {:induction false} PagesEncode(pages: seq<OggPage>, rest: seq<byte>)
    requires AllValid(pages)
    ensures Pages(Encode(pages) + rest) == Before(Tables(pages), Payloads(pages), Pages(rest))
  {
    if pages == [] {
      assert Encode(pages) + rest == rest;
      BeforeBefore([], [], [], [], Pages(rest));
    } else {
      var page, more := pages[0], pages[1..];
      assert Encode(pages) + rest == page.Encode() + (Encode(more) + rest);
      PagesFirst(page, Encode(more) + rest);
      PagesEncode(more, rest);
      BeforeBefore(page.table, page.payload, Tables(more), Payloads(more), Pages(rest));
    }
  }

  lemma {:induction false} UnlaceLace(open: seq<byte>, pkt: seq<byte>)
    ensures Unlace(open, Lace(|pkt|), pkt) == Unlaced([open + pkt], [])
    decreases |pkt|
  {
    if |pkt| < 255 {
      assert pkt[..|pkt|] == pkt;
    } else {
      var table := Lace(|pkt|);
      assert table[0] == 255 && table[1..] == Lace(|pkt| - 255);
      UnlaceLace(open + pkt[..255], pkt[255..]);
      assert open + pkt[..255] + pkt[255..] == open + pkt;
    }
  }

  lemma {:induction false} UnlaceLaceAll(packets: seq<seq<byte>>)
    ensures Unlace([], LaceAll(packets), Flatten(packets)) == Unlaced(packets, [])
  {
    if packets != [] {
      var pkt := packets[0];
      UnlaceLace([], pkt);
      UnlaceLaceAll(packets[1..]);
      UnlaceConcat([], Lace(|pkt|), pkt, LaceAll(packets[1..]), Flatten(packets[1..]));
      assert [] + pkt == pkt;
    }
  }

  /** What a fresh reader returns, from the joined tables and payloads. */
  lemma DrainFresh(input: seq<byte>)
    ensures var s := Pages(input);
            Drain(Reader(input, START)) == Drained(Samples(Delivered(START.flags, Unlace([], s.table, s.payload).packets)), s.error)
  {
    DrainIsOwed(Reader(input, START));
    var s := Pages(input);
    var packets := Delivered(START.flags, Unlace([], s.table, s.payload).packets);
    assert START.queue + packets == packets;
  }

  /** One way to cut: a page a segment, whatever the skipped header bytes. */
  function Paginate(mid: seq<byte>, table: seq<byte>, payload: seq<byte>): seq<OggPage>
    requires Sum(table) == |payload|
    decreases |table|
  {
    if table == [] then []
    else [OggPage(mid, [table[0]], payload[..table[0]])] + Paginate(mid, table[1..], payload[table[0]..])
  }

  lemma {:induction false} PaginateCuts(mid: seq<byte>, table: seq<byte>, payload: seq<byte>)
    requires Sum(table) == |payload| && |mid| == 22
    ensures var pages := Paginate(mid, table, payload);
            AllValid(pages) && Tables(pages) == table && Payloads(pages) == payload
    decreases |table|
  {
    if table != [] {
      var n := table[0];
      PaginateCuts(mid, table[1..], payload[n..]);
      var page, rest := OggPage(mid, [n], payload[..n]), Paginate(mid, table[1..], payload[n..]);
      assert Sum([n]) == n;
      assert ([page] + rest)[1..] == rest;
      assert [n] + table[1..] == table && payload[..n] + payload[n..] == payload;
    }
  }

  /** Every list of packets can be muxed, here with packets spread over pages segment by segment. */
  lemma {:induction false} EveryListMuxes(mid: seq<byte>, packets: seq<seq<byte>>)
    requires |mid| == 22
    ensures Muxes(Paginate(mid, LaceAll(packets), Flatten(packets)), packets)
  {
    PaginateCuts(mid, LaceAll(packets), Flatten(packets));
  }

  /** Any packets at all, muxed any way, then input that is not a whole page: the calls return
      the packets Delivered lets through, then the error that input gives. */
  lemma {:induction false} DrainMuxedThen(packets: seq<seq<byte>>, pages: seq<OggPage>, rest: seq<byte>)
    requires Muxes(pages, packets) && ReadPage(rest).NoPage?
    ensures Drain(Reader(Encode(pages) + rest, START))
            == Drained(Samples(Delivered(START.flags, packets)), ReadPage(rest).error)
    ensures ReadPage(rest).error == Internal <==> |rest| >= 27 && rest[..4] != [0x4F, 0x67, 0x67, 0x53]
  {
    DrainFresh(Encode(pages) + rest);
    PagesEncode(pages, rest);
    assert Tables(pages) + [] == Tables(pages) && Payloads(pages) + [] == Payloads(pages);
    UnlaceLaceAll(packets);
  }

  /** After an error: input that ends inside a page has ended for good; 27 bytes that are no page header are
      given up, and the next call goes on behind them with whatever packet was open. */
  lemma {:induction false} AfterError(r: Reader, bad: seq<byte>, rest: seq<byte>)
    requires |bad| == 27 && bad[..4] != [0x4F, 0x67, 0x67, 0x53]
    ensures Next(r).0 == Err(File) ==> Next(r).1.input == [] && Next(Next(r).1) == (Err(File), Next(r).1)
    ensures r.demux.queue == [] && r.input == bad + rest ==> Next(r) == (Err(Internal), r.(input := rest))
  {
    FileIsFinal(r);
    if r.input == bad + rest {
      assert r.input[..4] == bad[..4] && r.input[27..] == rest;
    }
  }

  lemma {:induction false} FileIsFinal(r: Reader)
    ensures Next(r).0 == Err(File) ==> Next(r).1.input == [] && Next(r).1.demux.queue == []
    decreases |r.input|
  {
    if r.demux.queue == [] && ReadPage(r.input).Page? {
      var p := ReadPage(r.input);
      FileIsFinal(Reader(p.rest, Segments(r.demux, p.table, p.payload)));
    }
  }

  /** With nothing after the pages that error is the end of the file. */
  lemma {:induction false} DrainMuxed(packets: seq<seq<byte>>, pages: seq<OggPage>)
    requires Muxes(pages, packets)
    ensures Drain(Reader(Encode(pages), START)) == Drained(Samples(Delivered(START.flags, packets)), File)
  {
    DrainMuxedThen(packets, pages, []);
    assert Encode(pages) + [] == Encode(pages);
  }

  /** After the first audio packet nothing but an empty packet is dropped, whatever it starts with. */
  lemma {:induction false} PlayingDelivers(packets: seq<seq<byte>>)
    ensures Delivered(PLAYING, packets) == NonEmptyOf(packets)
  {
    if packets != [] {
      PlayingDelivers(packets[1..]);
    }
  }

  /** The magic signatures of section 5 of RFC 7845, OpusHead and OpusTags. */
  predicate IsHead(pkt: seq<byte>) {
    |pkt| >= 8 && pkt[..8] == [0x4F, 0x70, 0x75, 0x73, 0x48, 0x65, 0x61, 0x64]
  }

  predicate IsTags(pkt: seq<byte>) {
    |pkt| >= 8 && pkt[..8] == [0x4F, 0x70, 0x75, 0x73, 0x54, 0x61, 0x67, 0x73]
  }

  /** The demultiplexer inverts the muxer: one header packet, one tags packet and any audio
      packets, cut into pages any way, come back as exactly the audio packets that are not
      empty, so as exactly the audio packets when none is. */
  lemma {:induction false} DemuxInvertsMux(head: seq<byte>, tags: seq<byte>, packets: seq<seq<byte>>, pages: seq<OggPage>)
    requires IsHead(head) && IsTags(tags)
    requires Muxes(pages, [head, tags] + packets)
    ensures Drain(Reader(Encode(pages), START)) == Drained(Samples(NonEmptyOf(packets)), File)
    ensures NonEmpty(packets) ==> NonEmptyOf(packets) == packets
  {
    DrainMuxed([head, tags] + packets, pages);
    MetadataDropped(head, tags, packets);
    PlayingDelivers(packets);
  }

  lemma MetadataDropped(head: seq<byte>, tags: seq<byte>, packets: seq<seq<byte>>)
    requires IsHead(head) && IsTags(tags)
    ensures Delivered(START.flags, [head, tags] + packets) == Delivered(PLAYING, packets)
  {
    var all := [head, tags] + packets;
    assert all[1..] == [tags] + packets && all[1..][1..] == packets;
    assert tags[4] == 0x54 && !(OPUS_HEAD <= tags);
    assert [] + Delivered(PLAYING, packets) == Delivered(PLAYING, packets);
  }

  /** Without the two metadata packets the same stream may lose its first packet: exactly when
      that packet looks like one of them. Later packets are always safe. */
  lemma BareStream(packets: seq<seq<byte>>, pages: seq<OggPage>)
    requires NonEmpty(packets) && Muxes(pages, packets)
    ensures Drain(Reader(Encode(pages), START)).samples == Samples(packets)
            <==> packets == [] || !(IsHead(packets[0]) || IsTags(packets[0]))
  {
    DrainMuxed(packets, pages);
    if packets != [] {
      BareDelivers(packets);
    }
  }

  lemma BareDelivers(packets: seq<seq<byte>>)
    requires packets != [] && NonEmpty(packets)
    ensures if IsHead(packets[0]) || IsTags(packets[0])
            then |Delivered(START.flags, packets)| < |packets|
            else Delivered(START.flags, packets) == packets
  {
    var v := Classify(START.flags, packets[0]);
    if v == Audio {
      PlayingDelivers(packets[1..]);
      assert NonEmpty(packets[1..]);
      assert packets == [packets[0]] + packets[1..];
    } else {
      DeliveredNoLonger(After(START.flags, v), packets[1..]);
    }
  }

  lemma {:induction false} DeliveredNoLonger(f: Flags, packets: seq<seq<byte>>)
    ensures |Delivered(f, packets)| <= |packets|
    decreases |packets|
  {
    if packets != [] {
      DeliveredNoLonger(After(f, Classify(f, packets[0])), packets[1..]);
    }
  }

  // ----- Conservation of bytes, for any input -----

  lemma {:induction false} UnlaceConserves(open: seq<byte>, table: seq<byte>, payload: seq<byte>)
    requires Sum(table) == |payload|
    ensures var u := Unlace(open, table, payload); Flatten(u.packets) + u.open == open + payload
    decreases |table|
  {
    if table != [] {
      var n := table[0];
      var chunk, rest := payload[..n], payload[n..];
      assert payload == chunk + rest && open + (chunk + rest) == open + chunk + rest;
      if n == 255 {
        UnlaceConserves(open + chunk, table[1..], rest);
      } else {
        UnlaceConserves([], table[1..], rest);
        PacketFirst(open + chunk, Unlace([], table[1..], rest).packets, Unlace([], table[1..], rest).open, rest);
      }
    }
  }

  lemma PacketFirst(pkt: seq<byte>, packets: seq<seq<byte>>, open: seq<byte>, bytes: seq<byte>)
    requires Flatten(packets) + open == [] + bytes
    ensures Flatten([pkt] + packets) + open == pkt + bytes
  {
    assert ([pkt] + packets)[1..] == packets;
    assert pkt + Flatten(packets) + open == pkt + (Flatten(packets) + open);
    assert [] + bytes == bytes;
  }

  /** Every completed packet is either handed out or dropped. */
  lemma {:induction false} DeliveredAndDropped(f: Flags, packets: seq<seq<byte>>)
    ensures |Flatten(Delivered(f, packets))| + |Flatten(Dropped(f, packets))| == |Flatten(packets)|
    ensures |Delivered(f, packets)| + |Dropped(f, packets)| == |packets|
    decreases |packets|
  {
    if packets != [] {
      var f' := After(f, Classify(f, packets[0]));
      DeliveredAndDropped(f', packets[1..]);
      var kept, lost := Delivered(f', packets[1..]), Dropped(f', packets[1..]);
      assert ([packets[0]] + kept)[1..] == kept && ([packets[0]] + lost)[1..] == lost;
      assert [] + kept == kept && [] + lost == lost;
    }
  }

  /** Of the packets that are not empty at most one header and one tags packet is dropped. */
  lemma {:induction false} DroppedAtMostTwo(f: Flags, packets: seq<seq<byte>>)
    ensures |NonEmptyOf(Dropped(f, packets))| <= (if f.header then 0 else 1) + (if f.tags then 0 else 1)
    decreases |packets|
  {
    if packets != [] {
      var f' := After(f, Classify(f, packets[0]));
      DroppedAtMostTwo(f', packets[1..]);
      var lost := Dropped(f', packets[1..]);
      assert ([packets[0]] + lost)[1..] == lost && [] + lost == lost;
    }
  }

  /** Payload bytes of the pages read = bytes handed out + bytes dropped + bytes of the packet
      still open, for every input whatever; and at most two packets with bytes are dropped. */
  lemma {:induction false} DrainConservesBytes(input: seq<byte>)
    ensures var s := Pages(input);
            var u := Unlace([], s.table, s.payload);
            var dropped := Dropped(START.flags, u.packets);
            && Drain(Reader(input, START)).samples == Samples(Delivered(START.flags, u.packets))
            && |Flatten(Delivered(START.flags, u.packets))| + |Flatten(dropped)| + |u.open| == |s.payload|
            && |NonEmptyOf(dropped)| <= 2
  {
    var s := Pages(input);
    var u := Unlace([], s.table, s.payload);
    DrainFresh(input);
    UnlaceConserves([], s.table, s.payload);
    DeliveredAndDropped(START.flags, u.packets);
    DroppedAtMostTwo(START.flags, u.packets);
  }

  // ----- A cut-off stream -----

  /** A whole page at the front of the input is there whatever follows. */
  lemma ReadPageAppend(input: seq<byte>, more: seq<byte>)
    requires ReadPage(input).Page?
    ensures var p := ReadPage(input); ReadPage(input + more) == Page(p.table, p.payload, p.rest + more)
  {
    var n, rest := input[26], input[27..];
    assert (input + more)[..4] == input[..4] && (input + more)[27..] == rest + more;
    assert (rest + more)[..n] == rest[..n] && (rest + more)[n..] == rest[n..] + more;
    var body, size := rest[n..], Sum(rest[..n]);
    assert (body + more)[..size] == body[..size] && (body + more)[size..] == body[size..] + more;
  }

  lemma {:induction false} PagesPrefix(input: seq<byte>, more: seq<byte>)
    ensures var s, t := Pages(input), Pages(input + more);
            s.table <= t.table && s.payload <= t.payload
    decreases |input|
  {
    if ReadPage(input).Page? {
      ReadPageAppend(input, more);
      PagesPrefix(ReadPage(input).rest, more);
    }
  }

  lemma SumSplit(table: seq<byte>, front: seq<byte>)
    requires front <= table
    ensures Sum(table) == Sum(front) + Sum(table[|front|..])
  {
    assert table == front + table[|front|..];
    SumConcat(front, table[|front|..]);
  }

  lemma DeliveredPrefix(s: Stream, t: Stream)
    requires Sum(s.table) == |s.payload| && Sum(t.table) == |t.payload|
    requires s.table <= t.table && s.payload <= t.payload
    ensures Delivered(START.flags, Unlace([], s.table, s.payload).packets)
            <= Delivered(START.flags, Unlace([], t.table, t.payload).packets)
  {
    SumSplit(t.table, s.table);
    var table2, payload2 := t.table[|s.table|..], t.payload[|s.payload|..];
    assert t.table == s.table + table2 && t.payload == s.payload + payload2;
    UnlaceConcat([], s.table, s.payload, table2, payload2);
    var u1 := Unlace([], s.table, s.payload);
    DeliveredConcat(START.flags, u1.packets, Unlace(u1.open, table2, payload2).packets);
  }

  /** Cutting the input off anywhere only shortens the list of samples. */
  lemma TruncationIsPrefix(input: seq<byte>, more: seq<byte>)
    ensures Drain(Reader(input, START)).samples <= Drain(Reader(input + more, START)).samples
  {
    PagesPrefix(input, more);
    DeliveredPrefix(Pages(input), Pages(input + more));
    DrainFresh(input);
    DrainFresh(input + more);
  }
}
