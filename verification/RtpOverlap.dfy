/** The video sends of wrtc/native/direct_transport.rs at the grain of their atomic actions (lines
    646-720): any number of calls under way at once, as at a source switch or with a keepalive
    frame, and sender reports reading the counters in between.

    A call takes its timestamp; it takes all its sequence numbers in one go, under the cipher's lock;
    then it hands its packets over one by one, adding each to the packet count and then to the octet
    count. An audio send is a call with one chunk, as far as the counters go. */
module RtpOverlap {
  import opened Media
  import opened RtpTransport
  import opened RtpTrace
  import opened RtpNumbering
  import opened RtpSharing

  /** Where a call is; `left` are its packets not yet counted in full, the one in hand first. */
  datatype Phase =
    | TsTaken(ts: u32)
    | Ready(left: seq<Packet>)    // to be handed over
    | Handed(left: seq<Packet>)   // handed over, not counted
    | Counted(left: seq<Packet>)  // counted, its octets not
    | Over

  /** A counter as a report has loaded it; how much had been handed over by then, how much of that by
      calls that had not counted it yet, and how many calls were under way. */
  datatype Reading = Reading(value: u32, handed: nat, lag: nat, inFlight: nat)

  /** The track's counters; the unwrapped ones, and what reports have loaded, are history. */
  datatype Counts = Counts(
    packets: u32, octets: u32, packetsAll: nat, octetsAll: nat, packetLoads: seq<Reading>, octetLoads: seq<Reading>)

  /** The packets in the order of their numbers, those numbers unwrapped, and the frames they carry. */
  datatype Ledger = Ledger(packets: seq<Packet>, places: seq<nat>, frames: seq<seq<(u32, seq<byte>)>>)

  /** `ticks` and `numbers` are what has been taken, unwrapped; the ledger is history. */
  datatype State = State(
    seq0: u16, ts0: u32, ticks: nat, numbers: nat, counts: Counts, calls: seq<Phase>, wire: seq<Packet>, ledger: Ledger)

  function Init(seq0: u16, ts0: u32): State {
    State(seq0, ts0, 0, 0, Counts(0, 0, 0, 0, [], []), [], [], Ledger([], [], []))
  }

  datatype Event =
    | Begin(ticks: nat)
    | Number(i: nat, chunks: seq<seq<byte>>, absTime: nat)
    | Fail(i: nat, wasted: nat)  // no chunks, no link, or a chunk that fails
    | Hand(i: nat) | CountPacket(i: nat) | CountOctets(i: nat)
    | LoadPackets | LoadOctets   // by a report

  predicate Enabled(s: State, e: Event) {
    match e
    case Begin(_) => true
    case Number(i, chunks, _) => i < |s.calls| && s.calls[i].TsTaken? && chunks != []
    case Fail(i, _) => i < |s.calls| && s.calls[i].TsTaken?
    case Hand(i) => i < |s.calls| && s.calls[i].Ready? && s.calls[i].left != []
    case CountPacket(i) => i < |s.calls| && s.calls[i].Handed? && s.calls[i].left != []
    case CountOctets(i) => i < |s.calls| && s.calls[i].Counted? && s.calls[i].left != []
    case _ => true
  }

  function Size(p: Packet): nat {
    if p.Rtp? then |p.payload| else 0
  }

  function Upwards(from: nat, n: nat): (r: seq<nat>)
    ensures |r| == n && forall k :: 0 <= k < n ==> r[k] == from + k
  {
    seq(n, k requires 0 <= k < n => from + k)
  }

  function Apply(s: State, e: Event): State
    requires Enabled(s, e)
  {
    match e
    case Begin(ticks) => s.(ticks := s.ticks + ticks, calls := s.calls + [TsTaken(Stamp(s.ts0, s.ticks))])
    case Number(i, chunks, absTime) =>
      var ts := s.calls[i].ts;
      var ps := FramePackets(Num(s.seq0, s.numbers), ts, absTime, chunks);
      s.(calls := s.calls[i := Ready(ps)], numbers := s.numbers + |chunks|,
         ledger := Ledger(s.ledger.packets + ps, s.ledger.places + Upwards(s.numbers, |chunks|),
                          s.ledger.frames + [Stamped(ts, chunks)]))
    case Fail(i, wasted) => s.(calls := s.calls[i := Over], numbers := s.numbers + wasted)
    case Hand(i) =>
      var left := s.calls[i].left;
      s.(calls := s.calls[i := Handed(left)], wire := s.wire + [left[0]])
    case CountPacket(i) =>
      s.(calls := s.calls[i := Counted(s.calls[i].left)],
         counts := s.counts.(packets := (s.counts.packets + 1) % TWO32, packetsAll := s.counts.packetsAll + 1))
    case CountOctets(i) =>
      var left := s.calls[i].left;
      s.(calls := s.calls[i := if |left| == 1 then Over else Ready(left[1..])],
         counts := s.counts.(octets := (s.counts.octets + Size(left[0]) % TWO32) % TWO32,
                             octetsAll := s.counts.octetsAll + Size(left[0])))
    case LoadPackets =>
      var r := Reading(s.counts.packets, |s.wire|, Lag(s.calls), InFlight(s.calls));
      s.(counts := s.counts.(packetLoads := s.counts.packetLoads + [r]))
    case LoadOctets =>
      var r := Reading(s.counts.octets, WireOctets(s.wire), OctetLag(s.calls), InFlight(s.calls));
      s.(counts := s.counts.(octetLoads := s.counts.octetLoads + [r]))
  }

  ghost predicate Possible(s: State, es: seq<Event>)
    decreases |es|
  {
    es == [] || (Enabled(s, es[0]) && Possible(Apply(s, es[0]), es[1..]))
  }

  ghost function Run(s: State, es: seq<Event>): State
    requires Possible(s, es)
    decreases |es|
  {
    if es == [] then s else Run(Apply(s, es[0]), es[1..])
  }

  // ----- What is under way -----

  /** Calls not yet over. */
  function InFlight(calls: seq<Phase>): nat {
    if calls == [] then 0 else InFlight(calls[..|calls| - 1]) + if calls[|calls| - 1].Over? then 0 else 1
  }

  /** Packets handed over and not counted. */
  function Lag(calls: seq<Phase>): nat {
    if calls == [] then 0 else Lag(calls[..|calls| - 1]) + if calls[|calls| - 1].Handed? then 1 else 0
  }

  function OctetsDue(p: Phase): nat {
    if (p.Handed? || p.Counted?) && p.left != [] then Size(p.left[0]) else 0
  }

  /** Octets handed over and not counted. */
  function OctetLag(calls: seq<Phase>): nat {
    if calls == [] then 0 else OctetLag(calls[..|calls| - 1]) + OctetsDue(calls[|calls| - 1])
  }

  function Unsent(p: Phase): seq<Packet> {
    match p
    case Ready(left) => left
    case Handed(left) => if left == [] then [] else left[1..]
    case Counted(left) => if left == [] then [] else left[1..]
    case _ => []
  }

  /** Packets numbered and not handed over. */
  function Pending(calls: seq<Phase>): multiset<Packet> {
    if calls == [] then multiset{} else Pending(calls[..|calls| - 1]) + multiset(Unsent(calls[|calls| - 1]))
  }

  lemma {:induction false} LagUpdate(calls: seq<Phase>, i: nat, p: Phase)
    requires i < |calls|
    ensures Lag(calls[i := p]) + (if calls[i].Handed? then 1 else 0) == Lag(calls) + if p.Handed? then 1 else 0
    ensures OctetLag(calls[i := p]) + OctetsDue(calls[i]) == OctetLag(calls) + OctetsDue(p)
    decreases |calls|
  {
    var n := |calls| - 1;
    if i < n {
      assert calls[i := p][..n] == calls[..n][i := p];
      LagUpdate(calls[..n], i, p);
    } else {
      assert calls[i := p][..n] == calls[..n];
    }
  }

  lemma PendingAppend(calls: seq<Phase>, p: Phase)
    ensures Pending(calls + [p]) == Pending(calls) + multiset(Unsent(p))
  {
    assert (calls + [p])[..|calls|] == calls;
  }

  lemma Exchange(a: multiset<Packet>, x: multiset<Packet>, b: multiset<Packet>, y: multiset<Packet>, c: multiset<Packet>)
    requires a + x == b + y
    ensures a + c + x == b + c + y
  {
    assert a + c + x == (a + x) + c && b + c + y == (b + y) + c;
  }

  /** A call moving on changes what is pending by its own part, and nothing else. */
  lemma {:induction false} PendingUpdate(calls: seq<Phase>, i: nat, p: Phase)
    requires i < |calls|
    ensures Pending(calls[i := p]) + multiset(Unsent(calls[i])) == Pending(calls) + multiset(Unsent(p))
    decreases |calls|
  {
    var n := |calls| - 1;
    var front, last := calls[..n], calls[n];
    assert calls == front + [last];
    PendingAppend(front, last);
    if i < n {
      assert calls[i := p] == front[i := p] + [last];
      PendingAppend(front[i := p], last);
      PendingUpdate(front, i, p);
      Exchange(Pending(front[i := p]), multiset(Unsent(calls[i])), Pending(front), multiset(Unsent(p)), multiset(Unsent(last)));
    } else {
      assert calls[i := p] == front + [p];
      PendingAppend(front, p);
      assert Pending(front) + multiset(Unsent(p)) + multiset(Unsent(last))
             == Pending(front) + multiset(Unsent(last)) + multiset(Unsent(p));
    }
  }

  lemma LagAppend(calls: seq<Phase>, ts: u32)
    ensures var more := calls + [TsTaken(ts)];
            Lag(more) == Lag(calls) && OctetLag(more) == OctetLag(calls) && Pending(more) == Pending(calls)
  {
    var more := calls + [TsTaken(ts)];
    assert more[..|calls|] == calls;
  }

  lemma {:induction false} LagInFlight(calls: seq<Phase>)
    ensures Lag(calls) <= InFlight(calls)
  {
    if calls != [] {
      LagInFlight(calls[..|calls| - 1]);
    }
  }

  function WireOctets(ps: seq<Packet>): nat {
    if ps == [] then 0 else WireOctets(ps[..|ps| - 1]) + Size(ps[|ps| - 1])
  }

  lemma WireOctetsAppend(ps: seq<Packet>, p: Packet)
    ensures WireOctets(ps + [p]) == WireOctets(ps) + Size(p)
  {
    assert (ps + [p])[..|ps|] == ps;
  }

  // ----- The counters -----

  /** The packet count is what has been handed over less one for each call caught between handing over
      and counting; the octet count likewise. */
  ghost predicate CountersTrail(c: Counts, calls: seq<Phase>, wire: seq<Packet>) {
    && c.packets == c.packetsAll % TWO32 && c.packetsAll + Lag(calls) == |wire|
    && c.octets == c.octetsAll % TWO32 && c.octetsAll + OctetLag(calls) == WireOctets(wire)
  }

  /** What a report states is what had been handed over, less what calls under way had not counted. */
  ghost predicate Trails(r: Reading) {
    r.lag <= r.handed && r.value == (r.handed - r.lag) % TWO32
  }

  /** Of packets that is at most one for each call under way. */
  ghost predicate ReadingsTrail(c: Counts) {
    && (forall k :: 0 <= k < |c.packetLoads| ==> Trails(c.packetLoads[k]) && c.packetLoads[k].lag <= c.packetLoads[k].inFlight)
    && forall k :: 0 <= k < |c.octetLoads| ==> Trails(c.octetLoads[k])
  }

  ghost predicate Counting(s: State) {
    CountersTrail(s.counts, s.calls, s.wire) && ReadingsTrail(s.counts)
  }

  lemma TrailCall(s: State, e: Event, i: nat)
    requires CountersTrail(s.counts, s.calls, s.wire) && Enabled(s, e) && i < |s.calls|
    requires e == Hand(i) || e == CountPacket(i) || e == CountOctets(i) || (e.Number? && e.i == i) || (e.Fail? && e.i == i)
    ensures var t := Apply(s, e); CountersTrail(t.counts, t.calls, t.wire)
  {
    var t := Apply(s, e);
    LagUpdate(s.calls, i, t.calls[i]);
    match e
    case Hand(_) => WireOctetsAppend(s.wire, s.calls[i].left[0]);
    case CountPacket(_) => ModAdd(s.counts.packetsAll, 1, s.counts.packets);
    case CountOctets(_) => ModAdd(s.counts.octetsAll, Size(s.calls[i].left[0]), s.counts.octets);
    case _ =>
  }

  lemma {:induction false} CountingStep(s: State, e: Event)
    requires Counting(s) && Enabled(s, e)
    ensures Counting(Apply(s, e))
  {
    match e
    case Begin(_) => LagAppend(s.calls, Stamp(s.ts0, s.ticks));
    case Number(i, _, _) => TrailCall(s, e, i);
    case Fail(i, _) => TrailCall(s, e, i);
    case Hand(i) => TrailCall(s, e, i);
    case CountPacket(i) => TrailCall(s, e, i);
    case CountOctets(i) => TrailCall(s, e, i);
    case LoadPackets => LagInFlight(s.calls);
    case LoadOctets =>
  }

  // ----- The frames -----

  /** The ledger's packets carry numbers that go up, and a receiver that cuts it after the markers gets
      the frames whole. */
  ghost predicate Kept(s: State) {
    var l := s.ledger;
    && |l.places| == |l.packets| && Positions(l.places, s.numbers)
    && (forall k :: 0 <= k < |l.packets| ==> l.packets[k].Rtp? && l.packets[k].seqNo == Num(s.seq0, l.places[k]))
    && Depacketize(l.packets) == Receiver(l.frames, [])
  }

  /** What is on the wire and what is still to be handed over are the ledger, in some order. */
  ghost predicate Accounted(s: State) {
    multiset(s.wire) + Pending(s.calls) == multiset(s.ledger.packets)
  }

  lemma FrameAppended(ps: seq<Packet>, frame: seq<Packet>, ts: u32, chunks: seq<seq<byte>>)
    requires Depacketize(ps).open == [] && |frame| == |chunks| > 0
    requires forall i :: 0 <= i < |frame| ==>
               frame[i].Rtp? && frame[i].ts == ts && frame[i].payload == chunks[i] && (frame[i].marker <==> i == |frame| - 1)
    ensures Depacketize(ps + frame) == Receiver(Depacketize(ps).frames + [Stamped(ts, chunks)], [])
  {
    DepacketizeFrame(ps, frame);
    assert Gathered(frame) == Stamped(ts, chunks);
  }

  lemma PlacesGoUp(places: seq<nat>, from: nat, n: nat)
    requires Positions(places, from)
    ensures Positions(places + Upwards(from, n), from + n)
  {
  }

  lemma NumbersKept(seq0: u16, packets: seq<Packet>, places: seq<nat>, from: nat, frame: seq<Packet>)
    requires |places| == |packets|
    requires forall k :: 0 <= k < |packets| ==> packets[k].Rtp? && packets[k].seqNo == Num(seq0, places[k])
    requires forall k :: 0 <= k < |frame| ==> frame[k].Rtp? && frame[k].seqNo == Num(Num(seq0, from), k)
    ensures var packets', places' := packets + frame, places + Upwards(from, |frame|);
            |places'| == |packets'|
            && forall k :: 0 <= k < |packets'| ==> packets'[k].Rtp? && packets'[k].seqNo == Num(seq0, places'[k])
  {
    forall k | |packets| <= k < |packets| + |frame|
      ensures (packets + frame)[k].Rtp? && (packets + frame)[k].seqNo == Num(seq0, (places + Upwards(from, |frame|))[k])
    {
      NumAdd(seq0, from, k - |packets|);
    }
  }

  lemma NumberKept(s: State, i: nat, chunks: seq<seq<byte>>, absTime: nat)
    requires Kept(s) && Enabled(s, Number(i, chunks, absTime))
    ensures Kept(Apply(s, Number(i, chunks, absTime)))
  {
    var l, ps := s.ledger, FramePackets(Num(s.seq0, s.numbers), s.calls[i].ts, absTime, chunks);
    PlacesGoUp(l.places, s.numbers, |chunks|);
    NumbersKept(s.seq0, l.packets, l.places, s.numbers, ps);
    FrameAppended(l.packets, ps, s.calls[i].ts, chunks);
  }

  lemma KeptStep(s: State, e: Event)
    requires Kept(s) && Enabled(s, e)
    ensures Kept(Apply(s, e))
  {
    if e.Number? {
      NumberKept(s, e.i, e.chunks, e.absTime);
    } else {
      assert Apply(s, e).ledger == s.ledger && Apply(s, e).numbers >= s.numbers;
    }
  }

  lemma SameUnsent(calls: seq<Phase>, i: nat, p: Phase)
    requires i < |calls| && Unsent(p) == Unsent(calls[i])
    ensures Pending(calls[i := p]) == Pending(calls)
  {
    PendingUpdate(calls, i, p);
    var a, b, x := Pending(calls[i := p]), Pending(calls), multiset(Unsent(p));
    assert a + x - x == a && b + x - x == b;
  }

  lemma NumberPending(calls: seq<Phase>, i: nat, ps: seq<Packet>)
    requires i < |calls| && calls[i].TsTaken?
    ensures Pending(calls[i := Ready(ps)]) == Pending(calls) + multiset(ps)
  {
    PendingUpdate(calls, i, Ready(ps));
    var a := Pending(calls[i := Ready(ps)]);
    assert a + multiset(Unsent(calls[i])) == a;
  }

  lemma HandPending(calls: seq<Phase>, i: nat)
    requires i < |calls| && calls[i].Ready? && calls[i].left != []
    ensures Pending(calls[i := Handed(calls[i].left)]) + multiset{calls[i].left[0]} == Pending(calls)
  {
    var left := calls[i].left;
    PendingUpdate(calls, i, Handed(left));
    assert left == [left[0]] + left[1..];
    var a, b, x, y := Pending(calls[i := Handed(left)]), Pending(calls), multiset{left[0]}, multiset(left[1..]);
    assert a + x + y == b + y;
    assert a + x + y - y == a + x && b + y - y == b;
  }

  lemma HandAccounted(s: State, i: nat)
    requires Accounted(s) && Enabled(s, Hand(i))
    ensures Accounted(Apply(s, Hand(i)))
  {
    HandPending(s.calls, i);
    var p, rest := s.calls[i].left[0], Pending(s.calls[i := Handed(s.calls[i].left)]);
    assert multiset(s.wire + [p]) + rest == multiset(s.wire) + (rest + multiset{p});
  }

  lemma NumberAccounted(s: State, i: nat, chunks: seq<seq<byte>>, absTime: nat)
    requires Accounted(s) && Enabled(s, Number(i, chunks, absTime))
    ensures Accounted(Apply(s, Number(i, chunks, absTime)))
  {
    var ps := FramePackets(Num(s.seq0, s.numbers), s.calls[i].ts, absTime, chunks);
    NumberPending(s.calls, i, ps);
    assert multiset(s.ledger.packets + ps) == multiset(s.ledger.packets) + multiset(ps);
    assert multiset(s.wire) + (Pending(s.calls) + multiset(ps)) == multiset(s.wire) + Pending(s.calls) + multiset(ps);
  }

  lemma {:induction false} AccountedStep(s: State, e: Event)
    requires Accounted(s) && Enabled(s, e)
    ensures Accounted(Apply(s, e))
  {
    match e
    case Begin(_) => LagAppend(s.calls, Stamp(s.ts0, s.ticks));
    case Number(i, chunks, absTime) => NumberAccounted(s, i, chunks, absTime);
    case Fail(i, _) => SameUnsent(s.calls, i, Over);
    case Hand(i) => HandAccounted(s, i);
    case CountPacket(i) => SameUnsent(s.calls, i, Counted(s.calls[i].left));
    case CountOctets(i) =>
      SameUnsent(s.calls, i, if |s.calls[i].left| == 1 then Over else Ready(s.calls[i].left[1..]));
    case _ =>
  }

  // ----- Over every run -----

  lemma {:induction false} KeptRun(s: State, es: seq<Event>)
    requires Counting(s) && Kept(s) && Accounted(s) && Possible(s, es)
    ensures var t := Run(s, es); Counting(t) && Kept(t) && Accounted(t)
    decreases |es|
  {
    if es != [] {
      CountingStep(s, es[0]);
      KeptStep(s, es[0]);
      AccountedStep(s, es[0]);
      KeptRun(Apply(s, es[0]), es[1..]);
    }
  }

  /** Whatever overlaps with whatever: every count a report loads is what had been handed over less
      what calls under way had not counted; the frames numbered lie whole in the order of their
      numbers; and no packet is lost, doubled or made up between numbering and the socket. */
  lemma EveryRunIsAccounted(seq0: u16, ts0: u32, es: seq<Event>)
    requires Possible(Init(seq0, ts0), es)
    ensures var s := Run(Init(seq0, ts0), es); Counting(s) && Kept(s) && Accounted(s)
  {
    KeptRun(Init(seq0, ts0), es);
  }

  // ----- Putting the packets in order -----

  function Distance(p: Packet, seq0: u16): nat
    requires p.Rtp?
  {
    (p.seqNo - seq0) % TWO16
  }

  ghost predicate InOrder(ps: seq<Packet>, seq0: u16) {
    && (forall i :: 0 <= i < |ps| ==> ps[i].Rtp?)
    && forall i, j :: 0 <= i < j < |ps| ==> Distance(ps[i], seq0) < Distance(ps[j], seq0)
  }

  lemma Cancel(m: multiset<Packet>, n: multiset<Packet>, p: Packet)
    requires m + multiset{p} == n + multiset{p}
    ensures m == n
  {
    assert m + multiset{p} - multiset{p} == m && n + multiset{p} - multiset{p} == n;
  }

  lemma WithoutLast(a: seq<Packet>, b: seq<Packet>, p: Packet)
    requires multiset(a + [p]) == multiset(b + [p])
    ensures multiset(a) == multiset(b)
  {
    assert multiset(a + [p]) == multiset(a) + multiset{p} && multiset(b + [p]) == multiset(b) + multiset{p};
    Cancel(multiset(a), multiset(b), p);
  }

  lemma FrontInOrder(ps: seq<Packet>, seq0: u16)
    requires ps != [] && InOrder(ps, seq0)
    ensures InOrder(ps[..|ps| - 1], seq0)
  {
  }

  /** There is one way to put packets with different numbers in order. */
  lemma {:induction false} OrderUnique(a: seq<Packet>, b: seq<Packet>, seq0: u16)
    requires multiset(a) == multiset(b) && InOrder(a, seq0) && InOrder(b, seq0)
    ensures a == b
    decreases |a|
  {
    assert |multiset(a)| == |a| && |multiset(b)| == |b|;
    if a != [] {
      var n := |a| - 1;
      LastAgrees(a, b, seq0);
      assert a == a[..n] + [a[n]] && b == b[..n] + [b[n]];
      WithoutLast(a[..n], b[..n], a[n]);
      FrontInOrder(a, seq0);
      FrontInOrder(b, seq0);
      OrderUnique(a[..n], b[..n], seq0);
    }
  }

  lemma LastAgrees(a: seq<Packet>, b: seq<Packet>, seq0: u16)
    requires multiset(a) == multiset(b) && InOrder(a, seq0) && InOrder(b, seq0) && |a| == |b| > 0
    ensures a[|a| - 1] == b[|b| - 1]
  {
    var n := |a| - 1;
    assert a[n] in multiset(b) && b[n] in multiset(a);
    var j :| 0 <= j < |b| && b[j] == a[n];
    var k :| 0 <= k < |a| && a[k] == b[n];
  }

  lemma {:induction false} NothingPending(calls: seq<Phase>)
    requires forall i :: 0 <= i < |calls| ==> calls[i].TsTaken? || calls[i].Over?
    ensures Pending(calls) == multiset{}
  {
    if calls != [] {
      NothingPending(calls[..|calls| - 1]);
    }
  }

  lemma LedgerInOrder(s: State)
    requires Kept(s) && s.numbers <= TWO16
    ensures InOrder(s.ledger.packets, s.seq0)
  {
    var l := s.ledger;
    forall k | 0 <= k < |l.packets|
      ensures Distance(l.packets[k], s.seq0) == l.places[k]
    {
    }
  }

  /** Overlapping sends may mix their packets on the wire; a receiver that puts the packets in the
      order of their numbers has every frame whole, in the order they were numbered, nothing over
      (here within one turn of the 16-bit counter). */
  lemma ReorderedIsWhole(seq0: u16, ts0: u32, es: seq<Event>, ordered: seq<Packet>)
    requires Possible(Init(seq0, ts0), es)
    requires var s := Run(Init(seq0, ts0), es);
             && s.numbers <= TWO16 && (forall i :: 0 <= i < |s.calls| ==> s.calls[i].TsTaken? || s.calls[i].Over?)
             && multiset(ordered) == multiset(s.wire) && InOrder(ordered, s.seq0)
    ensures Depacketize(ordered) == Receiver(Run(Init(seq0, ts0), es).ledger.frames, [])
  {
    var s := Run(Init(seq0, ts0), es);
    EveryRunIsAccounted(seq0, ts0, es);
    NothingPending(s.calls);
    LedgerInOrder(s);
    OrderUnique(ordered, s.ledger.packets, s.seq0);
  }
}
