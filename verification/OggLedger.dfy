/** The Ogg/Opus reader in the middle of a stream: after any number of calls, failed ones among
    them, every payload byte read so far has been handed out, waits in the queue, was dropped, or
    belongs to the packet still open. */
module OggLedger {
  import opened Media
  import opened OggDemux
  import opened OggMux

  /** Segment tables joined, payloads joined. */
  datatype Read = Read(table: seq<byte>, payload: seq<byte>)

  function Joined(a: Read, b: Read): Read {
    Read(a.table + b.table, a.payload + b.payload)
  }

  /** The pages one call reads. */
  function PagesRead(r: Reader): (p: Read)
    ensures Sum(p.table) == |p.payload|
    decreases |r.input|
  {
    if r.demux.queue != [] then Read([], [])
    else match ReadPage(r.input)
      case NoPage(_, _) => Read([], [])
      case Page(table, payload, rest) =>
        var more := PagesRead(Reader(rest, Segments(r.demux, table, payload)));
        SumConcat(table, more.table);
        Joined(Read(table, payload), more)
  }

  /** The packet one call hands out, if it hands out one. */
  function HandedOut(r: Reader): seq<seq<byte>> {
    match Next(r).0
    case Ok(sample) => [sample.data]
    case Err(_) => []
  }

  /** A reader after some calls, the packets handed out so far and the pages read so far. */
  datatype Progress = Progress(reader: Reader, out: seq<seq<byte>>, read: Read)

  function Calls(input: seq<byte>, n: nat): Progress {
    if n == 0 then Progress(Reader(input, START), [], Read([], []))
    else
      var g := Calls(input, n - 1);
      Progress(Next(g.reader).1, g.out + HandedOut(g.reader), Joined(g.read, PagesRead(g.reader)))
  }

  /** Handed out and queued together are the completed packets the filter lets through; the flags
      and the open packet are where they leave them. */
  ghost predicate Agrees(d: Demux, out: seq<seq<byte>>, u: Unlaced) {
    && d.flags == FlagsAfter(START.flags, u.packets) && d.current == u.open
    && out + d.queue == Delivered(START.flags, u.packets)
  }

  /** The reader agrees with the pages read. */
  ghost predicate Balanced(d: Demux, out: seq<seq<byte>>, read: Read) {
    Sum(read.table) == |read.payload| && Agrees(d, out, Unlace([], read.table, read.payload))
  }

  lemma AgreesOn(d: Demux, out: seq<seq<byte>>, u: Unlaced, more: Unlaced)
    requires Agrees(d, out, u)
    ensures Agrees(Demux(FlagsAfter(d.flags, more.packets), d.queue + Delivered(d.flags, more.packets), more.open),
                   out, Unlaced(u.packets + more.packets, more.open))
  {
    DeliveredConcat(START.flags, u.packets, more.packets);
    var added := Delivered(d.flags, more.packets);
    assert out + (d.queue + added) == out + d.queue + added;
  }

  lemma BalancedPage(d: Demux, out: seq<seq<byte>>, read: Read, table: seq<byte>, payload: seq<byte>)
    requires Balanced(d, out, read) && Sum(table) == |payload|
    ensures Balanced(Segments(d, table, payload), out, Joined(read, Read(table, payload)))
  {
    SegmentsUnlace(d, table, payload);
    UnlaceConcat([], read.table, read.payload, table, payload);
    AgreesOn(d, out, Unlace([], read.table, read.payload), Unlace(d.current, table, payload));
  }

  lemma JoinedJoined(a: Read, b: Read, c: Read)
    ensures Joined(Joined(a, b), c) == Joined(a, Joined(b, c)) && Joined(a, Read([], [])) == a
  {
    assert a.table + b.table + c.table == a.table + (b.table + c.table);
    assert a.payload + b.payload + c.payload == a.payload + (b.payload + c.payload);
    assert a.table + [] == a.table && a.payload + [] == a.payload;
  }

  /** One call keeps the balance, however many pages it reads. */
  lemma {:induction false} BalancedCall(r: Reader, out: seq<seq<byte>>, read: Read)
    requires Balanced(r.demux, out, read)
    ensures Balanced(Next(r).1.demux, out + HandedOut(r), Joined(read, PagesRead(r)))
    decreases |r.input|
  {
    if r.demux.queue != [] {
      JoinedJoined(read, read, read);
      var queue := r.demux.queue;
      assert out + [queue[0]] + queue[1..] == out + queue;
    } else {
      match ReadPage(r.input)
      case NoPage(_, _) =>
        JoinedJoined(read, read, read);
        assert out + [] == out;
      case Page(table, payload, rest) =>
        var r1 := Reader(rest, Segments(r.demux, table, payload));
        BalancedPage(r.demux, out, read, table, payload);
        BalancedCall(r1, out, Joined(read, Read(table, payload)));
        JoinedJoined(read, Read(table, payload), PagesRead(r1));
    }
  }

  lemma {:induction false} BalancedCalls(input: seq<byte>, n: nat)
    ensures var g := Calls(input, n); Balanced(g.reader.demux, g.out, g.read)
  {
    if n > 0 {
      var g := Calls(input, n - 1);
      BalancedCalls(input, n - 1);
      BalancedCall(g.reader, g.out, g.read);
    }
  }

  /** Payload bytes read = handed out + queued + dropped + open, after any number of calls on any
      input, past errors too; and at most two packets with bytes in them are dropped. */
  lemma CallsConserveBytes(input: seq<byte>, n: nat)
    ensures var g := Calls(input, n);
            && Sum(g.read.table) == |g.read.payload|
            && var dropped := Dropped(START.flags, Unlace([], g.read.table, g.read.payload).packets);
               && |Flatten(g.out)| + |Flatten(g.reader.demux.queue)| + |Flatten(dropped)| + |g.reader.demux.current|
                  == |g.read.payload|
               && |NonEmptyOf(dropped)| <= 2
  {
    var g := Calls(input, n);
    BalancedCalls(input, n);
    var u := Unlace([], g.read.table, g.read.payload);
    UnlaceConserves([], g.read.table, g.read.payload);
    DeliveredAndDropped(START.flags, u.packets);
    DroppedAtMostTwo(START.flags, u.packets);
    FlattenConcat(g.out, g.reader.demux.queue);
  }
}
