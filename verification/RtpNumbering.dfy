/** Sequence numbers, timestamps, markers and frame boundaries over any history: the wire as a
    function of the calls accepted, with no state in between. */
module RtpNumbering {
  import opened Media
  import opened OpusTiming
  import opened VideoTiming
  import opened RtpTransport
  import opened RtpTrace

  /** A send accepted on a track, as the numbering sees it: the payloads it puts on the wire,
      the sequence numbers and clock ticks it uses up, and whether it is the first one on its
      track since the start or a reset. */
  datatype Call = Call(track: Track, payloads: seq<seq<byte>>, taken: nat, ticks: nat, first: bool, absTime: nat)

  /** An audio call always takes one number, even when nothing is sent; a video call takes one a
      chunk, or those up to the chunk that fails. `up` when there is a cipher and a socket. */
  function CallOf(op: Op, up: bool, first: bool): (c: Call)
    requires IsSend(op)
    ensures c.taken >= |c.payloads| && (op.SendAudio? ==> SendsOne(c))
  {
    match op
    case SendAudio(payload, nanos, ntp, ok, _) =>
      Call(Audio, if up && ok then [payload] else [], 1, AudioTicks(nanos), first, AbsTime(ntp))
    case SendVideo(chunks, nanos, ntp, failAt, _) =>
      var ready := up && chunks.Some?;
      var fails := ready && Fails(chunks.value, failAt);
      Call(Video, if ready && !fails then chunks.value else [],
           if fails then failAt.value + 1 else if ready then |chunks.value| else 0,
           VideoTicks(nanos), first, AbsTime(ntp))
  }

  /** No send accepted on the track since the start or the last reset. */
  predicate Untouched(track: Track, t: Tx, ops: seq<Op>) {
    if ops == [] then SenderOf(t, track).first
    else
      var front, op := ops[..|ops| - 1], ops[|ops| - 1];
      op.Reset? || (Untouched(track, t, front) && (!Feeds(op, track) || After(t, front).closed))
  }

  function SenderOf(t: Tx, track: Track): Sender {
    if track == Audio then t.audio else t.video
  }

  /** The sends accepted on a track, in order. */
  function Calls(track: Track, t: Tx, ops: seq<Op>): (cs: seq<Call>)
    ensures forall i :: 0 <= i < |cs| ==> cs[i].track == track && Sound(cs[i])
    ensures track == Audio ==> forall i :: 0 <= i < |cs| ==> SendsOne(cs[i])
  {
    if ops == [] then []
    else
      var front, op := ops[..|ops| - 1], ops[|ops| - 1];
      var t1 := After(t, front);
      Calls(track, t, front)
      + if Feeds(op, track) && !t1.closed then [CallOf(op, t1.srtp && t1.socket, Untouched(track, t, front))] else []
  }

  /** The operations behind them. */
  function Accepted(track: Track, t: Tx, ops: seq<Op>): (sends: seq<Op>)
    ensures forall i :: 0 <= i < |sends| ==> Feeds(sends[i], track)
  {
    if ops == [] then []
    else
      var front, op := ops[..|ops| - 1], ops[|ops| - 1];
      Accepted(track, t, front) + if Feeds(op, track) && !After(t, front).closed then [op] else []
  }

  function PayloadsOf(op: Op): seq<seq<byte>>
    requires IsSend(op)
  {
    match op
    case SendAudio(payload, _, _, _, _) => [payload]
    case SendVideo(chunks, _, _, _, _) => if chunks.Some? then chunks.value else []
  }

  function TicksOf(op: Op): nat
    requires IsSend(op)
  {
    match op
    case SendAudio(_, nanos, _, _, _) => AudioTicks(nanos)
    case SendVideo(_, nanos, _, _, _) => VideoTicks(nanos)
  }

  /** Accepted, a send moves the clock by its ticks and puts all of its payloads on the wire, or
      none. */
  predicate Carries(c: Call, op: Op)
    requires IsSend(op)
  {
    c.ticks == TicksOf(op) && (c.payloads == [] || c.payloads == PayloadsOf(op))
  }

  lemma {:induction false} CallsCarry(track: Track, t: Tx, ops: seq<Op>)
    ensures var cs, sends := Calls(track, t, ops), Accepted(track, t, ops);
            |cs| == |sends| && forall k :: 0 <= k < |cs| ==> Carries(cs[k], sends[k])
    decreases |ops|
  {
    if ops != [] {
      CallsCarry(track, t, ops[..|ops| - 1]);
    }
  }

  /** Nothing in the operation itself fails. */
  predicate Sendable(op: Op)
    requires IsSend(op)
  {
    match op
    case SendAudio(_, _, _, ok, _) => ok
    case SendVideo(chunks, _, _, failAt, _) => chunks.Some? && !Fails(chunks.value, failAt)
  }

  /** Every send the track accepts finds cipher and socket there, and nothing in it fails. */
  predicate Unhindered(track: Track, t: Tx, ops: seq<Op>) {
    if ops == [] then true
    else
      var front, op := ops[..|ops| - 1], ops[|ops| - 1];
      var t1 := After(t, front);
      && Unhindered(track, t, front)
      && (Feeds(op, track) && !t1.closed ==> t1.srtp && t1.socket && Sendable(op))
  }

  /** Then all that is sent is put on the wire. */
  lemma {:induction false} UnhinderedCalls(track: Track, t: Tx, ops: seq<Op>)
    requires Unhindered(track, t, ops)
    ensures var cs, sends := Calls(track, t, ops), Accepted(track, t, ops);
            |cs| == |sends| && forall k :: 0 <= k < |cs| ==> cs[k].payloads == PayloadsOf(sends[k])
    decreases |ops|
  {
    if ops != [] {
      UnhinderedCalls(track, t, ops[..|ops| - 1]);
    }
  }

  /** No payload without a number. */
  predicate Sound(c: Call) {
    |c.payloads| <= c.taken
  }

  /** One number, and at most one packet. */
  predicate SendsOne(c: Call) {
    c.taken == 1 && |c.payloads| <= 1
  }

  function TakenAll(cs: seq<Call>): nat {
    if cs == [] then 0 else TakenAll(cs[..|cs| - 1]) + cs[|cs| - 1].taken
  }

  function TicksAll(cs: seq<Call>): nat {
    if cs == [] then 0 else TicksAll(cs[..|cs| - 1]) + cs[|cs| - 1].ticks
  }

  /** The packets of one call, given its first sequence number and its timestamp: audio marks
      the first packet after the start or a reset, video the last packet of a frame. */
  function PacketsOf(c: Call, seqNo: u16, ts: u32): (ps: seq<Packet>)
    ensures |ps| == |c.payloads|
    ensures forall i :: 0 <= i < |ps| ==>
              ps[i] == Rtp(c.track, Num(seqNo, i), ts, if c.track == Audio then c.first else i == |c.payloads| - 1,
                           c.absTime, c.payloads[i])
  {
    seq(|c.payloads|, i requires 0 <= i < |c.payloads| =>
      Rtp(c.track, Num(seqNo, i), ts, if c.track == Audio then c.first else i == |c.payloads| - 1, c.absTime, c.payloads[i]))
  }

  /** The track's wire in closed form: each call starts at seq0 + numbers taken before it, and
      carries ts0 + ticks before it. */
  function Emit(seq0: u16, ts0: u32, cs: seq<Call>): (ps: seq<Packet>)
    ensures forall i :: 0 <= i < |ps| ==> ps[i].Rtp?
  {
    if cs == [] then []
    else
      var front := cs[..|cs| - 1];
      Emit(seq0, ts0, front)
      + PacketsOf(cs[|cs| - 1], Num(seq0, TakenAll(front)), Stamp(ts0, TicksAll(front)))
  }

  lemma EmitAppend(seq0: u16, ts0: u32, front: seq<Call>, last: Call)
    ensures Emit(seq0, ts0, front + [last])
            == Emit(seq0, ts0, front) + PacketsOf(last, Num(seq0, TakenAll(front)), Stamp(ts0, TicksAll(front)))
    ensures TakenAll(front + [last]) == TakenAll(front) + last.taken
    ensures TicksAll(front + [last]) == TicksAll(front) + last.ticks
  {
    assert (front + [last])[..|front|] == front;
  }

  /** What an accepted call does to its track. */
  ghost predicate Effect(s: Sender, c: Call, s': Sender, sent: seq<Packet>) {
    && sent == PacketsOf(c, s.seqNo, s.ts)
    && s'.seqNo == Num(s.seqNo, c.taken)
    && s'.ts == Stamp(s.ts, c.ticks)
    && !s'.first
  }

  lemma CallStepAudio(t: Tx, op: Op)
    requires op.SendAudio? && !t.closed
    ensures Effect(t.audio, CallOf(op, t.srtp && t.socket, t.audio.first), Step(t, op).0.audio, Sent(Audio, t, op))
  {
    ModAdd(t.audio.ts, AudioTicks(op.nanos), t.audio.ts);
  }

  lemma CallStepVideo(t: Tx, op: Op)
    requires op.SendVideo? && !t.closed
    ensures Effect(t.video, CallOf(op, t.srtp && t.socket, t.video.first), Step(t, op).0.video, Sent(Video, t, op))
  {
    ModAdd(t.video.ts, VideoTicks(op.nanos), t.video.ts);
    if Sent(Video, t, op) != [] {
      CountKeepsNumbers(Advance(t.video, |op.chunks.value|, VideoTicks(op.nanos)), op.chunks.value);
    }
  }

  lemma CallStep(track: Track, t: Tx, op: Op)
    requires Feeds(op, track) && !t.closed
    ensures var s := SenderOf(t, track);
            Effect(s, CallOf(op, t.srtp && t.socket, s.first), SenderOf(Step(t, op).0, track), Sent(track, t, op))
  {
    if track == Audio {
      CallStepAudio(t, op);
    } else {
      CallStepVideo(t, op);
    }
  }

  lemma CallExtends(s0: Sender, cs: seq<Call>, s: Sender, c: Call, s': Sender, sent: seq<Packet>)
    requires Effect(s, c, s', sent)
    requires s.seqNo == Num(s0.seqNo, TakenAll(cs)) && s.ts == Stamp(s0.ts, TicksAll(cs))
    ensures Emit(s0.seqNo, s0.ts, cs) + sent == Emit(s0.seqNo, s0.ts, cs + [c])
    ensures s'.seqNo == Num(s0.seqNo, TakenAll(cs + [c])) && s'.ts == Stamp(s0.ts, TicksAll(cs + [c])) && !s'.first
  {
    EmitAppend(s0.seqNo, s0.ts, cs, c);
    NumFollows(s0.seqNo, s.seqNo, s'.seqNo, TakenAll(cs), c.taken);
    StampFollows(s0.ts, s.ts, s'.ts, TicksAll(cs), c.ticks);
  }

  lemma NumFollows(seq0: u16, a: u16, b: u16, m: nat, n: nat)
    requires a == Num(seq0, m) && b == Num(a, n)
    ensures b == Num(seq0, m + n)
  {
    NumAdd(seq0, m, n);
  }

  lemma StampFollows(ts0: u32, a: u32, b: u32, m: nat, n: nat)
    requires a == Stamp(ts0, m) && b == Stamp(a, n)
    ensures b == Stamp(ts0, m + n)
  {
    StampAdd(ts0, m, n);
  }

  lemma {:induction false} CountKeepsNumbers(s: Sender, chunks: seq<seq<byte>>)
    ensures CountAll(s, chunks).seqNo == s.seqNo && CountAll(s, chunks).ts == s.ts && CountAll(s, chunks).first == s.first
    decreases |chunks|
  {
    if chunks != [] {
      CountKeepsNumbers(s, chunks[..|chunks| - 1]);
    }
  }

  /** Any other operation leaves the track's numbers alone: a reset only asks for a marker. */
  lemma OtherStep(track: Track, t: Tx, op: Op)
    requires !Feeds(op, track) || t.closed
    ensures var s, s' := SenderOf(t, track), SenderOf(Step(t, op).0, track);
            && Sent(track, t, op) == []
            && s'.seqNo == s.seqNo && s'.ts == s.ts && s'.first == (s.first || op.Reset?)
  {
  }

  /** The track's packets and fields, from the calls accepted alone. */
  ghost predicate Law(track: Track, t: Tx, ops: seq<Op>) {
    var s0, s, cs := SenderOf(t, track), SenderOf(After(t, ops), track), Calls(track, t, ops);
    && RtpOf(track, Wire(t, ops)) == Emit(s0.seqNo, s0.ts, cs)
    && s.seqNo == Num(s0.seqNo, TakenAll(cs))
    && s.ts == Stamp(s0.ts, TicksAll(cs))
    && s.first == Untouched(track, t, ops)
  }

  lemma {:induction false} LawCall(track: Track, t: Tx, ops: seq<Op>)
    requires ops != [] && Law(track, t, ops[..|ops| - 1])
    requires Feeds(ops[|ops| - 1], track) && !After(t, ops[..|ops| - 1]).closed
    ensures Law(track, t, ops)
  {
    var front, op := ops[..|ops| - 1], ops[|ops| - 1];
    var t1, cs, s0 := After(t, front), Calls(track, t, front), SenderOf(t, track);
    var c := CallOf(op, t1.srtp && t1.socket, Untouched(track, t, front));
    RtpOfStep(track, Wire(t, front), t1, op);
    CallStep(track, t1, op);
    CallExtends(s0, cs, SenderOf(t1, track), c, SenderOf(Step(t1, op).0, track), Sent(track, t1, op));
    assert Calls(track, t, ops) == cs + [c];
  }

  lemma {:induction false} LawOther(track: Track, t: Tx, ops: seq<Op>)
    requires ops != [] && Law(track, t, ops[..|ops| - 1])
    requires !Feeds(ops[|ops| - 1], track) || After(t, ops[..|ops| - 1]).closed
    ensures Law(track, t, ops)
  {
    var front, op := ops[..|ops| - 1], ops[|ops| - 1];
    var t1, wire := After(t, front), Wire(t, front);
    RtpOfStep(track, wire, t1, op);
    OtherStep(track, t1, op);
    assert Calls(track, t, ops) == Calls(track, t, front);
    assert RtpOf(track, wire) + [] == RtpOf(track, wire);
  }

  /** The law of the wire: over any history, through resets, lost links, closes and sends on the
      other track. */
  lemma {:induction false} WireLaw(track: Track, t: Tx, ops: seq<Op>)
    ensures Law(track, t, ops)
    decreases |ops|
  {
    if ops == [] {
      NumAdd(SenderOf(t, track).seqNo, 0, 0);
    } else {
      var front, op := ops[..|ops| - 1], ops[|ops| - 1];
      WireLaw(track, t, front);
      if Feeds(op, track) && !After(t, front).closed {
        LawCall(track, t, ops);
      } else {
        LawOther(track, t, ops);
      }
    }
  }

  // ----- Consecutive sequence numbers -----

  ghost predicate Consecutive(ps: seq<Packet>, seq0: u16)
    requires forall i :: 0 <= i < |ps| ==> ps[i].Rtp?
  {
    forall i :: 0 <= i < |ps| ==> ps[i].seqNo == Num(seq0, i)
  }

  /** The call uses up exactly the numbers it puts on the wire. */
  predicate Lossless(c: Call) {
    c.taken == |c.payloads|
  }

  function PayloadsAll(cs: seq<Call>): nat {
    if cs == [] then 0 else PayloadsAll(cs[..|cs| - 1]) + |cs[|cs| - 1].payloads|
  }

  /** Numbers used up with no packet to show for them. */
  function Wasted(cs: seq<Call>): int {
    TakenAll(cs) - PayloadsAll(cs)
  }

  /** Before every call that sends, whole turns of the 16-bit counter have been wasted: none, or
      65 536 numbers, or a multiple. */
  ghost predicate InStep(cs: seq<Call>) {
    forall k :: 0 <= k < |cs| && cs[k].payloads != [] ==> Wasted(cs[..k]) % TWO16 == 0
  }

  lemma {:induction false} EmitLength(seq0: u16, ts0: u32, cs: seq<Call>)
    ensures |Emit(seq0, ts0, cs)| == PayloadsAll(cs)
    decreases |cs|
  {
    if cs != [] {
      EmitLength(seq0, ts0, cs[..|cs| - 1]);
    }
  }

  lemma InStepAppend(front: seq<Call>, last: Call)
    ensures InStep(front + [last]) <==> InStep(front) && (last.payloads == [] || Wasted(front) % TWO16 == 0)
  {
    var cs := front + [last];
    assert forall k :: 0 <= k < |front| ==> cs[k] == front[k] && cs[..k] == front[..k];
    assert cs[|front|] == last && cs[..|front|] == front;
  }

  lemma NumEqual(seq0: u16, m: nat, n: nat)
    ensures Num(seq0, m) == Num(seq0, n) <==> (m - n) % TWO16 == 0
  {
  }

  lemma AppendConsecutive(a: seq<Packet>, b: seq<Packet>, seq0: u16, taken: nat)
    requires forall i :: 0 <= i < |a| ==> a[i].Rtp?
    requires forall i :: 0 <= i < |b| ==> b[i].Rtp? && b[i].seqNo == Num(Num(seq0, taken), i)
    ensures forall i :: 0 <= i < |a + b| ==> (a + b)[i].Rtp?
    ensures Consecutive(a + b, seq0) <==> Consecutive(a, seq0) && (b == [] || (taken - |a|) % TWO16 == 0)
  {
    var ps := a + b;
    assert forall i :: 0 <= i < |a| ==> ps[i] == a[i];
    forall i | |a| <= i < |ps|
      ensures ps[i].seqNo == Num(seq0, i) <==> (taken - |a|) % TWO16 == 0
    {
      assert ps[i] == b[i - |a|];
      NumAdd(seq0, taken, i - |a|);
      NumEqual(seq0, taken + i - |a|, i);
    }
    if Consecutive(ps, seq0) {
      assert Consecutive(a, seq0);
      assert b != [] ==> ps[|a|].seqNo == Num(seq0, |a|);
    }
  }

  /** The numbers on the wire run on without a gap exactly when the calls are in step, for any
      number of calls and any number of turns of the counter. */
  lemma {:induction false} ConsecutiveIff(seq0: u16, ts0: u32, cs: seq<Call>)
    ensures Consecutive(Emit(seq0, ts0, cs), seq0) <==> InStep(cs)
    decreases |cs|
  {
    if cs != [] {
      var front, last := cs[..|cs| - 1], cs[|cs| - 1];
      assert cs == front + [last];
      EmitAppend(seq0, ts0, front, last);
      ConsecutiveIff(seq0, ts0, front);
      EmitLength(seq0, ts0, front);
      var b := PacketsOf(last, Num(seq0, TakenAll(front)), Stamp(ts0, TicksAll(front)));
      AppendConsecutive(Emit(seq0, ts0, front), b, seq0, TakenAll(front));
      InStepAppend(front, last);
    }
  }

  lemma {:induction false} WastedBySome(cs: seq<Call>)
    requires forall i :: 0 <= i < |cs| ==> Sound(cs[i])
    ensures Wasted(cs) >= 0
    ensures Wasted(cs) == 0 <==> forall i :: 0 <= i < |cs| ==> Lossless(cs[i])
    decreases |cs|
  {
    if cs != [] {
      var front := cs[..|cs| - 1];
      WastedBySome(front);
      assert forall i :: 0 <= i < |front| ==> front[i] == cs[i];
    }
  }

  lemma {:induction false} TakenGrows(cs: seq<Call>, k: nat)
    requires k <= |cs|
    ensures TakenAll(cs[..k]) <= TakenAll(cs)
    decreases |cs|
  {
    if k == |cs| {
      assert cs[..k] == cs;
    } else {
      var front := cs[..|cs| - 1];
      assert front[..k] == cs[..k];
      TakenGrows(front, k);
    }
  }

  predicate LosslessBefore(cs: seq<Call>, k: nat)
    requires k <= |cs|
  {
    forall j :: 0 <= j < k ==> Lossless(cs[j])
  }

  /** No call that wastes a number comes before one that sends. */
  ghost predicate WasteLast(cs: seq<Call>) {
    forall k :: 0 <= k < |cs| && cs[k].payloads != [] ==> LosslessBefore(cs, k)
  }

  lemma WastedUnderTurn(cs: seq<Call>, k: nat)
    requires k < |cs| && cs[k].taken > 0 && TakenAll(cs) <= TWO16
    ensures Wasted(cs[..k]) < TWO16
  {
    assert cs[..k + 1][..k] == cs[..k];
    TakenGrows(cs, k + 1);
  }

  lemma LosslessFront(cs: seq<Call>, k: nat)
    requires (forall i :: 0 <= i < |cs| ==> Sound(cs[i])) && k <= |cs|
    ensures Wasted(cs[..k]) >= 0 && (Wasted(cs[..k]) == 0 <==> LosslessBefore(cs, k))
  {
    var front := cs[..k];
    WastedBySome(front);
    assert forall j :: 0 <= j < k ==> front[j] == cs[j];
  }

  lemma WastedBefore(cs: seq<Call>, k: nat)
    requires (forall i :: 0 <= i < |cs| ==> Sound(cs[i])) && k < |cs| && cs[k].payloads != []
    ensures LosslessBefore(cs, k) ==> Wasted(cs[..k]) % TWO16 == 0
    ensures TakenAll(cs) <= TWO16 && Wasted(cs[..k]) % TWO16 == 0 ==> LosslessBefore(cs, k)
  {
    LosslessFront(cs, k);
    if TakenAll(cs) <= TWO16 {
      WastedUnderTurn(cs, k);
      NoWholeTurn(Wasted(cs[..k]));
    }
  }

  lemma NoWholeTurn(n: nat)
    requires n < TWO16
    ensures n % TWO16 == 0 <==> n == 0
  {
  }

  /** Waste that comes last keeps the calls in step, and inside the first turn of the counter
      nothing else does. */
  lemma WasteLastInTurn(cs: seq<Call>)
    requires forall i :: 0 <= i < |cs| ==> Sound(cs[i])
    ensures WasteLast(cs) ==> InStep(cs)
    ensures TakenAll(cs) <= TWO16 ==> (InStep(cs) <==> WasteLast(cs))
  {
    forall k | 0 <= k < |cs| && cs[k].payloads != []
      ensures LosslessBefore(cs, k) ==> Wasted(cs[..k]) % TWO16 == 0
      ensures TakenAll(cs) <= TWO16 && Wasted(cs[..k]) % TWO16 == 0 ==> LosslessBefore(cs, k)
    {
      WastedBefore(cs, k);
    }
  }

  /** A whole turn wasted leaves no trace: 65 536 audio calls that send nothing, then one that
      does, and the numbers still run on. */
  lemma TurnLeavesNoGap(seq0: u16, ts0: u32, lost: Call, sent: Call, n: nat)
    requires lost.taken == 1 && lost.payloads == []
    requires sent.payloads != []
    ensures var cs := seq(n, _ => lost) + [sent];
            Consecutive(Emit(seq0, ts0, cs), seq0) <==> n % TWO16 == 0
  {
    var front := seq(n, _ => lost);
    ConsecutiveIff(seq0, ts0, front + [sent]);
    InStepAppend(front, sent);
    AllLost(lost, n);
  }

  lemma {:induction false} AllLost(lost: Call, n: nat)
    requires lost.taken == 1 && lost.payloads == []
    ensures Wasted(seq(n, _ => lost)) == n
  {
    if n > 0 {
      assert seq(n, _ => lost)[..n - 1] == seq(n - 1, _ => lost);
      AllLost(lost, n - 1);
    }
  }

  /** Over any history, of any length, through resets, lost links and source switches: the
      numbers on a track run on without a gap exactly when its sends are in step. */
  lemma WireConsecutiveIff(track: Track, t: Tx, ops: seq<Op>)
    ensures Consecutive(RtpOf(track, Wire(t, ops)), SenderOf(t, track).seqNo) <==> InStep(Calls(track, t, ops))
    ensures WasteLast(Calls(track, t, ops)) ==> InStep(Calls(track, t, ops))
  {
    var s := SenderOf(t, track);
    WireLaw(track, t, ops);
    ConsecutiveIff(s.seqNo, s.ts, Calls(track, t, ops));
    WasteLastInTurn(Calls(track, t, ops));
  }

  lemma OneMore(t: Tx, ops: seq<Op>, op: Op)
    ensures After(t, ops + [op]) == Step(After(t, ops), op).0
    ensures RtpOf(Audio, Wire(t, ops + [op])) == RtpOf(Audio, Wire(t, ops)) + Sent(Audio, After(t, ops), op)
  {
    assert (ops + [op])[..|ops|] == ops;
    RtpOfStep(Audio, Wire(t, ops), After(t, ops), op);
  }

  /** An audio send with the link up: one number, and a packet with it unless `ok` fails. */
  lemma AudioSendUp(t: Tx, op: Op)
    requires op.SendAudio? && t.srtp && t.socket && !t.closed
    ensures var t', sent := Step(t, op).0, Sent(Audio, t, op);
            && t'.srtp && t'.socket && !t'.closed && t'.audio.seqNo == Num(t.audio.seqNo, 1)
            && if op.ok then |sent| == 1 && sent[0].seqNo == t.audio.seqNo else sent == []
  {
  }

  lemma LinkUp(t: Tx)
    requires !t.closed
    ensures var t' := After(t, [Connect, Handshake]);
            t'.srtp && t'.socket && !t'.closed && t'.audio.seqNo == t.audio.seqNo && RtpOf(Audio, Wire(t, [Connect, Handshake])) == []
  {
    OneMore(t, [], Connect);
    OneMore(t, [Connect], Handshake);
    assert [] + [Connect] == [Connect] && [Connect] + [Handshake] == [Connect, Handshake];
  }

  lemma GapAfter(t: Tx, ops: seq<Op>, good: Op, bad: Op)
    requires var t1 := After(t, ops); t1.srtp && t1.socket && !t1.closed && RtpOf(Audio, Wire(t, ops)) == []
    requires good.SendAudio? && good.ok && bad.SendAudio? && !bad.ok
    ensures var wire, seq0 := RtpOf(Audio, Wire(t, ops + [good] + [bad] + [good])), After(t, ops).audio.seqNo;
            |wire| == 2 && wire[0].seqNo == seq0 && wire[1].seqNo == Num(Num(seq0, 1), 1)
  {
    OneMore(t, ops, good);
    AudioSendUp(After(t, ops), good);
    OneMore(t, ops + [good], bad);
    AudioSendUp(After(t, ops + [good]), bad);
    OneMore(t, ops + [good] + [bad], good);
    AudioSendUp(After(t, ops + [good] + [bad]), good);
  }

  lemma SkippedNumber(ps: seq<Packet>, seq0: u16)
    requires |ps| == 2 && (forall i :: 0 <= i < |ps| ==> ps[i].Rtp?) && ps[1].seqNo == Num(Num(seq0, 1), 1)
    ensures ps[1].seqNo == Num(seq0, 2) && !Consecutive(ps, seq0)
  {
    NumAdd(seq0, 1, 1);
    NumEqual(seq0, 1, 2);
  }

  /** A history that leaves a gap: the second of three audio packets cannot be encrypted. */
  lemma GapOnTheWire(audioSeq: u16, videoSeq: u16, good: Op, bad: Op)
    requires good.SendAudio? && good.ok && bad.SendAudio? && !bad.ok
    ensures var wire := RtpOf(Audio, Wire(Start(audioSeq, videoSeq), [Connect, Handshake] + [good] + [bad] + [good]));
            |wire| == 2 && wire[0].seqNo == audioSeq && wire[1].seqNo == Num(audioSeq, 2) && !Consecutive(wire, audioSeq)
  {
    var t := Start(audioSeq, videoSeq);
    LinkUp(t);
    GapAfter(t, [Connect, Handshake], good, bad);
    SkippedNumber(RtpOf(Audio, Wire(t, [Connect, Handshake] + [good] + [bad] + [good])), audioSeq);
  }

  // ----- Calls that reach the wire -----

  /** The calls that put something on the wire, by position. */
  function Reached(cs: seq<Call>): (r: seq<nat>)
    ensures forall j :: 0 <= j < |r| ==> r[j] < |cs| && cs[r[j]].payloads != []
  {
    if cs == [] then []
    else Reached(cs[..|cs| - 1]) + if cs[|cs| - 1].payloads == [] then [] else [|cs| - 1]
  }

  lemma {:induction false} ReachedInOrder(cs: seq<Call>)
    ensures forall i, j :: 0 <= i < j < |Reached(cs)| ==> Reached(cs)[i] < Reached(cs)[j]
    decreases |cs|
  {
    if cs != [] {
      ReachedInOrder(cs[..|cs| - 1]);
    }
  }

  lemma {:induction false} ReachedAll(cs: seq<Call>, k: nat)
    requires k < |cs| && cs[k].payloads != []
    ensures k in Reached(cs)
    decreases |cs|
  {
    var front := cs[..|cs| - 1];
    if k < |front| {
      assert front[k] == cs[k];
      ReachedAll(front, k);
    } else {
      assert Reached(cs)[|Reached(cs)| - 1] == k;
    }
  }

  /** In order, each once, none missed. */
  lemma ReachedExactly(cs: seq<Call>)
    ensures forall i, j :: 0 <= i < j < |Reached(cs)| ==> Reached(cs)[i] < Reached(cs)[j]
    ensures forall k :: 0 <= k < |cs| && cs[k].payloads != [] ==> k in Reached(cs)
  {
    ReachedInOrder(cs);
    forall k | 0 <= k < |cs| && cs[k].payloads != []
      ensures k in Reached(cs)
    {
      ReachedAll(cs, k);
    }
  }

  lemma {:induction false} AllReached(cs: seq<Call>)
    requires forall i :: 0 <= i < |cs| ==> cs[i].payloads != []
    ensures |Reached(cs)| == |cs| && forall k :: 0 <= k < |cs| ==> Reached(cs)[k] == k
    decreases |cs|
  {
    if cs != [] {
      AllReached(cs[..|cs| - 1]);
    }
  }

  /** The packet of an audio call, if it has one: the number of every call before it counts. */
  function AudioPacket(seq0: u16, ts0: u32, cs: seq<Call>, k: nat): Packet
    requires k < |cs| && cs[k].payloads != []
  {
    Rtp(Audio, Num(seq0, k), Stamp(ts0, TicksAll(cs[..k])), cs[k].first, cs[k].absTime, cs[k].payloads[0])
  }

  /** Audio, packets lost before the wire or not: packet j is the j-th call that reached it,
      numbered and stamped as if every call before had reached it too. */
  lemma {:induction false} AudioWire(seq0: u16, ts0: u32, cs: seq<Call>)
    requires forall i :: 0 <= i < |cs| ==> cs[i].track == Audio && SendsOne(cs[i])
    ensures |Emit(seq0, ts0, cs)| == |Reached(cs)| && TakenAll(cs) == |cs|
    ensures forall j :: 0 <= j < |Reached(cs)| ==> Emit(seq0, ts0, cs)[j] == AudioPacket(seq0, ts0, cs, Reached(cs)[j])
    decreases |cs|
  {
    if cs != [] {
      var front, last := cs[..|cs| - 1], cs[|cs| - 1];
      assert cs == front + [last];
      AudioWire(seq0, ts0, front);
      EmitAppend(seq0, ts0, front, last);
      NumAdd(seq0, |front|, 0);
      forall k | 0 <= k <= |front|
        ensures cs[..k] == front[..k]
      {
      }
    }
  }

  // ----- Depacketizing video -----

  /** What a receiver has put together: whole frames, and the packets since the last marker.
      A frame is its chunks, each with its timestamp. */
  datatype Receiver = Receiver(frames: seq<seq<(u32, seq<byte>)>>, open: seq<(u32, seq<byte>)>)

  /** A sender report is no part of a frame. */
  function Take(r: Receiver, p: Packet): Receiver {
    if p.SenderReport? then r
    else
      var open := r.open + [(p.ts, p.payload)];
      if p.marker then Receiver(r.frames + [open], []) else Receiver(r.frames, open)
  }

  /** Cut after each marker. */
  function Depacketize(ps: seq<Packet>): Receiver {
    if ps == [] then Receiver([], []) else Take(Depacketize(ps[..|ps| - 1]), ps[|ps| - 1])
  }

  function Stamped(ts: u32, chunks: seq<seq<byte>>): (f: seq<(u32, seq<byte>)>)
    ensures |f| == |chunks| && forall i :: 0 <= i < |f| ==> f[i] == (ts, chunks[i])
  {
    seq(|chunks|, i requires 0 <= i < |chunks| => (ts, chunks[i]))
  }

  /** The frames sent, each under the one timestamp ts0 + ticks of the calls before it. */
  function FramesSent(ts0: u32, cs: seq<Call>): seq<seq<(u32, seq<byte>)>>
  {
    if cs == [] then []
    else
      var front, last := cs[..|cs| - 1], cs[|cs| - 1];
      FramesSent(ts0, front)
      + if last.payloads == [] then [] else [Stamped(Stamp(ts0, TicksAll(front)), last.payloads)]
  }

  /** They are the calls that reached the wire, in order. */
  lemma {:induction false} FramesReached(ts0: u32, cs: seq<Call>)
    ensures |FramesSent(ts0, cs)| == |Reached(cs)|
    ensures forall j :: 0 <= j < |Reached(cs)| ==>
              var k := Reached(cs)[j];
              FramesSent(ts0, cs)[j] == Stamped(Stamp(ts0, TicksAll(cs[..k])), cs[k].payloads)
    decreases |cs|
  {
    if cs != [] {
      var front := cs[..|cs| - 1];
      FramesReached(ts0, front);
      forall j | 0 <= j < |Reached(front)|
        ensures cs[..Reached(front)[j]] == front[..Reached(front)[j]] && cs[Reached(front)[j]] == front[Reached(front)[j]]
      {
      }
    }
  }

  function Gathered(part: seq<Packet>): (g: seq<(u32, seq<byte>)>)
    requires forall i :: 0 <= i < |part| ==> part[i].Rtp?
    ensures |g| == |part| && forall i :: 0 <= i < |g| ==> g[i] == (part[i].ts, part[i].payload)
  {
    seq(|part|, i requires 0 <= i < |part| => (part[i].ts, part[i].payload))
  }

  lemma TakeOne(ps: seq<Packet>, p: Packet)
    ensures Depacketize(ps + [p]) == Take(Depacketize(ps), p)
  {
    assert (ps + [p])[..|ps|] == ps;
  }

  lemma GatheredAppend(part: seq<Packet>, p: Packet)
    requires (forall i :: 0 <= i < |part| ==> part[i].Rtp?) && p.Rtp?
    ensures forall i :: 0 <= i < |part + [p]| ==> (part + [p])[i].Rtp?
    ensures Gathered(part + [p]) == Gathered(part) + [(p.ts, p.payload)]
  {
  }

  /** Taking in part of a frame, marker not yet seen. */
  lemma {:induction false} DepacketizePart(ps: seq<Packet>, part: seq<Packet>)
    requires forall i :: 0 <= i < |part| ==> part[i].Rtp? && !part[i].marker
    ensures Depacketize(ps + part) == Receiver(Depacketize(ps).frames, Depacketize(ps).open + Gathered(part))
    decreases |part|
  {
    var open := Depacketize(ps).open;
    if part == [] {
      EmptyEnds(ps);
      EmptyEnds(open);
    } else {
      var front, last := part[..|part| - 1], part[|part| - 1];
      DepacketizePart(ps, front);
      TakeOne(ps + front, last);
      GatheredAppend(front, last);
      SplitLast(part);
      Assoc(ps, front, [last]);
      Assoc(open, Gathered(front), [(last.ts, last.payload)]);
    }
  }

  /** The packet with the marker closes the frame. */
  lemma DepacketizeLast(ps: seq<Packet>, front: seq<Packet>, last: Packet)
    requires (forall i :: 0 <= i < |front| ==> front[i].Rtp? && !front[i].marker) && last.Rtp? && last.marker
    requires Depacketize(ps).open == []
    ensures Depacketize(ps + front + [last])
            == Receiver(Depacketize(ps).frames + [Gathered(front) + [(last.ts, last.payload)]], [])
  {
    DepacketizePart(ps, front);
    TakeOne(ps + front, last);
    EmptyEnds(Gathered(front));
  }

  /** One frame's packets close exactly one frame. */
  lemma DepacketizeFrame(ps: seq<Packet>, frame: seq<Packet>)
    requires frame != [] && forall i :: 0 <= i < |frame| ==> frame[i].Rtp? && (frame[i].marker <==> i == |frame| - 1)
    requires Depacketize(ps).open == []
    ensures Depacketize(ps + frame) == Receiver(Depacketize(ps).frames + [Gathered(frame)], [])
  {
    var front, last := frame[..|frame| - 1], frame[|frame| - 1];
    DepacketizeLast(ps, front, last);
    SplitLast(frame);
    Assoc(ps, front, [last]);
    GatheredAppend(front, last);
  }

  /** Over any history, cutting the video wire after each marker gives back the chunk lists of
      the frames sent, in order, nothing left over; each frame has one timestamp. */
  lemma {:induction false} DepacketizeEmit(seq0: u16, ts0: u32, cs: seq<Call>)
    requires forall i :: 0 <= i < |cs| ==> cs[i].track == Video
    ensures Depacketize(Emit(seq0, ts0, cs)) == Receiver(FramesSent(ts0, cs), [])
    decreases |cs|
  {
    if cs != [] {
      var front, last := cs[..|cs| - 1], cs[|cs| - 1];
      assert cs == front + [last];
      DepacketizeEmit(seq0, ts0, front);
      EmitAppend(seq0, ts0, front, last);
      DepacketizeCall(Emit(seq0, ts0, front), last, Num(seq0, TakenAll(front)), Stamp(ts0, TicksAll(front)));
    }
  }

  lemma DepacketizeCall(ps: seq<Packet>, c: Call, seqNo: u16, ts: u32)
    requires c.track == Video && Depacketize(ps).open == []
    ensures Depacketize(ps + PacketsOf(c, seqNo, ts))
            == Receiver(Depacketize(ps).frames + if c.payloads == [] then [] else [Stamped(ts, c.payloads)], [])
  {
    var b := PacketsOf(c, seqNo, ts);
    if b == [] {
      assert ps + b == ps;
    } else {
      DepacketizeFrame(ps, b);
      assert Gathered(b) == Stamped(ts, c.payloads);
    }
  }

  lemma VideoDepacketizes(t: Tx, ops: seq<Op>)
    ensures Depacketize(RtpOf(Video, Wire(t, ops))) == Receiver(FramesSent(t.video.ts, Calls(Video, t, ops)), [])
  {
    WireLaw(Video, t, ops);
    DepacketizeEmit(t.video.seqNo, t.video.ts, Calls(Video, t, ops));
  }

  // ----- Packet sizes -----

  predicate ChunksFit(chunks: seq<seq<byte>>, limit: nat) {
    forall i :: 0 <= i < |chunks| ==> |chunks[i]| <= limit
  }

  lemma {:induction false} CallsFit(t: Tx, ops: seq<Op>, limit: nat)
    requires forall k :: 0 <= k < |Accepted(Video, t, ops)| ==> ChunksFit(PayloadsOf(Accepted(Video, t, ops)[k]), limit)
    ensures forall k :: 0 <= k < |Calls(Video, t, ops)| ==> ChunksFit(Calls(Video, t, ops)[k].payloads, limit)
  {
    CallsCarry(Video, t, ops);
  }

  lemma {:induction false} EmitFits(seq0: u16, ts0: u32, cs: seq<Call>, limit: nat)
    requires forall k :: 0 <= k < |cs| ==> ChunksFit(cs[k].payloads, limit)
    ensures forall i :: 0 <= i < |Emit(seq0, ts0, cs)| ==> |Emit(seq0, ts0, cs)[i].payload| <= limit
    decreases |cs|
  {
    if cs != [] {
      EmitFits(seq0, ts0, cs[..|cs| - 1], limit);
    }
  }

  /** A payloader that keeps to its limit keeps every video packet of any history under it: frames
      are never glued together on the way. */
  lemma VideoPacketsFit(t: Tx, ops: seq<Op>, limit: nat)
    requires forall k :: 0 <= k < |Accepted(Video, t, ops)| ==> ChunksFit(PayloadsOf(Accepted(Video, t, ops)[k]), limit)
    ensures forall i :: 0 <= i < |RtpOf(Video, Wire(t, ops))| ==>
              |RtpOf(Video, Wire(t, ops))[i].payload| <= limit
  {
    WireLaw(Video, t, ops);
    CallsFit(t, ops, limit);
    EmitFits(t.video.seqNo, t.video.ts, Calls(Video, t, ops), limit);
  }
}
