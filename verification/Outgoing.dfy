/** The streamer and the transport as one machine: the pacing task's send is carried out by the
    transport and returns its answer, while anyone else uses the transport too. */
module Outgoing {
  import opened Media
  import opened VideoTiming
  import OggDemux
  import OggMux
  import IvfDemux
  import opened Streamer
  import opened StreamerSafety
  import opened StreamerRuns
  import opened RtpTransport
  import opened RtpTrace
  import opened RtpNumbering
  import opened RtpSharing
  import opened Pipeline

  /** What a send finds outside: the clock, the payloader's chunks, failures. */
  datatype Outside = Outside(ntp: nat, chunks: Option<seq<seq<byte>>>, ok: bool, failAt: Option<nat>, sealed: Sealed)

  datatype Happening =
    | Streams(e: Event)      // any step of the streamer but the return of a send
    | Sends(out: Outside)    // its send is carried out and returns
    | Elsewhere(op: Op)      // any other operation of the transport: other senders, resets, connecting, closing

  /** One streamer over a source, its payload type, and the transport it finds. */
  datatype Setup = Setup(source: seq<Item>, now: nat, payloadType: byte, t: Tx)

  /** The streamer, the transport's history since, which accepted sends of the track are the
      streamer's, the last answer to it, and its run so far. */
  datatype Joint = Joint(s: State, ops: seq<Op>, mine: seq<nat>, answer: Option<Error>, ghost trace: seq<Event>)

  function TrackOf(payloadType: byte): Track {
    if payloadType == OPUS_PAYLOAD_TYPE then Audio else Video
  }

  function Begin(w: Setup): Joint {
    Joint(Init(w.source, w.now), [], [], None, [])
  }

  ghost predicate MayHappen(j: Joint, h: Happening) {
    match h
    case Streams(e) => !e.Sent? && Enabled(j.s, e)
    case Sends(_) => j.s.pacer.pc.PSending? && InHand(j.s.pacer)
    case Elsewhere(_) => true
  }

  function OpOf(w: Setup, sample: Sample, out: Outside): Op {
    MediaOp(w.payloadType, sample.data, sample.duration, out.ntp, out.chunks, out.ok, out.failAt, out.sealed)
  }

  ghost function Happens(w: Setup, j: Joint, h: Happening): Joint
    requires MayHappen(j, h)
  {
    match h
    case Streams(e) => j.(s := Apply(j.s, e), trace := j.trace + [e])
    case Elsewhere(op) => j.(ops := j.ops + [op])
    case Sends(out) =>
      var tx := After(w.t, j.ops);
      var answer := Answer(tx, w.payloadType, out.chunks, out.ok, out.failAt);
      Joint(Apply(j.s, Sent(answer)), j.ops + [OpOf(w, j.s.pacer.held[0].value, out)],
            j.mine + if tx.closed then [] else [|Accepted(TrackOf(w.payloadType), w.t, j.ops)|],
            answer, j.trace + [Sent(answer)])
  }

  ghost predicate CanGo(w: Setup, j: Joint, hs: seq<Happening>)
    decreases |hs|
  {
    hs == [] || (MayHappen(j, hs[0]) && CanGo(w, Happens(w, j, hs[0]), hs[1..]))
  }

  ghost function Goes(w: Setup, j: Joint, hs: seq<Happening>): Joint
    requires CanGo(w, j, hs)
    decreases |hs|
  {
    if hs == [] then j else Goes(w, Happens(w, j, hs[0]), hs[1..])
  }

  // ----- What every run of the two keeps -----

  /** The streamer's part is one of its own runs. */
  ghost predicate Traced(w: Setup, j: Joint) {
    var s0 := Init(w.source, w.now);
    Possible(s0, j.trace) && j.s == Run(s0, j.trace)
  }

  /** A send as the transport has it is the sample. */
  predicate SendsSample(op: Op, sample: Sample) {
    match op
    case SendAudio(payload, nanos, _, _, _) => payload == sample.data && nanos == sample.duration
    case SendVideo(_, nanos, _, _, _) => nanos == sample.duration
    case _ => false
  }

  /** The accepted sends at the positions `mine` are the samples sent, in order. */
  ghost predicate Matches(sends: seq<Op>, mine: seq<nat>, sent: seq<Sample>) {
    && |mine| <= |sent| && Positions(mine, |sends|)
    && forall k :: 0 <= k < |mine| ==> SendsSample(sends[mine[k]], sent[k])
  }

  /** All samples sent are accepted, but for one being sent, and one that was refused by a closed
      transport and ended the loop. */
  ghost predicate InStepWith(s: State, mine: seq<nat>) {
    var sent, log := SentOf(s.hist.log), s.hist.log;
    && (s.pacer.pc.PSending? ==>
          |sent| == |mine| + 1 && log != [] && !log[|log| - 1].muted
          && InHand(s.pacer) && log[|log| - 1].sample == s.pacer.held[0].value)
    && (InLoop(s.pacer.pc) && !s.pacer.pc.PSending? ==> |sent| == |mine|)
    && |mine| <= |sent| <= |mine| + 1
  }

  /** The loop has ended by a failed send exactly when the last answer was an error, that error. */
  ghost predicate Answered(p: PacerTask, answer: Option<Error>) {
    && (InLoop(p.pc) ==> answer == None && p.reason == None)
    && forall e :: p.reason == Some(SendFailed(e)) <==> answer == Some(e)
  }

  ghost predicate Linked(w: Setup, j: Joint) {
    && Traced(w, j)
    && Matches(Accepted(TrackOf(w.payloadType), w.t, j.ops), j.mine, SentOf(j.s.hist.log))
    && InStepWith(j.s, j.mine)
    && Answered(j.s.pacer, j.answer)
  }

  lemma AcceptedAppend(track: Track, t: Tx, ops: seq<Op>, op: Op)
    ensures Accepted(track, t, ops + [op])
            == Accepted(track, t, ops) + if Feeds(op, track) && !After(t, ops).closed then [op] else []
  {
    assert (ops + [op])[..|ops|] == ops;
  }

  lemma MatchesMore(sends: seq<Op>, more: seq<Op>, mine: seq<nat>, sent: seq<Sample>, sent': seq<Sample>)
    requires Matches(sends, mine, sent) && sent <= sent'
    ensures Matches(sends + more, mine, sent')
  {
  }

  /** A step of the streamer alone sends nothing, or puts one more sample on its way. */
  lemma LogGrows(s: State, e: Event)
    requires Enabled(s, e) && !e.Sent?
    ensures var log, log' := s.hist.log, Apply(s, e).hist.log;
            if e.Pacer? && Handles(s) && !s.pacer.pc.PPace? then
              log' == log + [Frame(s.pacer.held[0].value, s.pacer.deadline, s.now, s.pacer.restarted, s.pacer.pc.PMuted?)]
            else log' == log
  {
    if e.Pacer? && !Handles(s) && Walks(s.pacer.pc) {
      assert PacerStep(s).hist == s.hist;
    }
  }

  lemma SentOfAppended(log: seq<Frame>, f: Frame)
    ensures SentOf(log + [f]) == SentOf(log) + if f.muted then [] else [f.sample]
  {
    assert (log + [f])[..|log|] == log;
  }

  lemma StreamsSent(s: State, e: Event)
    requires Enabled(s, e) && !e.Sent?
    ensures SentOf(Apply(s, e).hist.log)
            == SentOf(s.hist.log) + if e.Pacer? && s.pacer.pc.PSend? then [s.pacer.held[0].value] else []
  {
    LogGrows(s, e);
    var log := s.hist.log;
    if e.Pacer? && Handles(s) && !s.pacer.pc.PPace? {
      SentOfAppended(log, Frame(s.pacer.held[0].value, s.pacer.deadline, s.now, s.pacer.restarted, s.pacer.pc.PMuted?));
    } else {
      assert SentOf(log) + [] == SentOf(log);
    }
  }

  /** Where a step of the pacing task can lead, as far as sends go. */
  ghost predicate GoesOn(p: PacerTask, p': PacerTask, sends: bool) {
    && (p'.pc.PSending? <==> sends)
    && (InLoop(p'.pc) ==> InLoop(p.pc) && p'.reason == p.reason)
    && (sends ==> p'.held == p.held)
    && (p'.reason == p.reason || p'.reason == Some(Stopped) || p'.reason == Some(ChannelClosed)
        || (p'.reason.Some? && p'.reason.value.SourceEnd?))
    && (p'.reason != p.reason ==> InLoop(p.pc))
  }

  lemma HandleGoesOn(s: State)
    requires Handles(s)
    ensures GoesOn(s.pacer, HandleStep(s).pacer, s.pacer.pc.PSend?)
  {
  }

  lemma WalkGoesOn(p: PacerTask, f: Flags, now: nat)
    requires Walks(p.pc)
    ensures GoesOn(p, PacerWalk(p, f, now), false)
  {
  }

  lemma TakeGoesOn(s: State)
    requires s.pacer.pc.PTake? && PacerEnabled(s)
    ensures GoesOn(s.pacer, PacerStep(s).pacer, false)
  {
  }

  lemma EndGoesOn(s: State)
    requires !InLoop(s.pacer.pc)
    ensures GoesOn(s.pacer, EndStep(s).pacer, false)
  {
  }

  lemma PacerGoesOn(s: State)
    requires PacerEnabled(s)
    ensures GoesOn(s.pacer, PacerStep(s).pacer, s.pacer.pc.PSend?)
  {
    if Handles(s) {
      HandleGoesOn(s);
    } else if Walks(s.pacer.pc) {
      WalkGoesOn(s.pacer, s.flags, s.now);
    } else if s.pacer.pc.PTake? {
      TakeGoesOn(s);
    } else if !InLoop(s.pacer.pc) {
      EndGoesOn(s);
    }
  }

  /** Any other step but the return of a send leaves the pacing task where it is, or in the join. */
  lemma OthersStay(s: State, e: Event)
    requires Enabled(s, e) && !e.Sent? && !e.Pacer?
    ensures var p, p' := s.pacer, Apply(s, e).pacer;
            p'.reason == p.reason && (p' == p || (p.pc.PJoin? && p'.pc.PJoin?))
  {
  }

  lemma StreamsPc(s: State, e: Event)
    requires Enabled(s, e) && !e.Sent?
    ensures var p, p' := s.pacer, Apply(s, e).pacer;
            if e.Pacer? then GoesOn(p, p', p.pc.PSend?)
            else p'.reason == p.reason && (p' == p || (p.pc.PJoin? && p'.pc.PJoin?))
  {
    if e.Pacer? {
      PacerGoesOn(s);
    } else {
      OthersStay(s, e);
    }
  }

  lemma StreamsAnswered(s: State, e: Event, answer: Option<Error>)
    requires Enabled(s, e) && !e.Sent? && Answered(s.pacer, answer)
    ensures Answered(Apply(s, e).pacer, answer)
  {
    StreamsPc(s, e);
  }

  lemma StreamsInStep(s: State, e: Event, mine: seq<nat>)
    requires Enabled(s, e) && !e.Sent? && InStepWith(s, mine) && Hand(s.pacer)
    ensures InStepWith(Apply(s, e), mine)
  {
    StreamsSent(s, e);
    StreamsPc(s, e);
    LogGrows(s, e);
  }

  lemma TracedStep(w: Setup, j: Joint, e: Event)
    requires Traced(w, j) && Enabled(j.s, e)
    ensures Traced(w, j.(s := Apply(j.s, e), trace := j.trace + [e]))
  {
    RunAppend(Init(w.source, w.now), j.trace, e);
  }

  lemma StreamsStep(w: Setup, j: Joint, e: Event)
    requires Linked(w, j) && Enabled(j.s, e) && !e.Sent?
    ensures Linked(w, Happens(w, j, Streams(e)))
  {
    EveryRunIsSafe(w.source, w.now, j.trace);
    TracedStep(w, j, e);
    StreamsSent(j.s, e);
    var sends := Accepted(TrackOf(w.payloadType), w.t, j.ops);
    assert sends + [] == sends;
    MatchesMore(sends, [], j.mine, SentOf(j.s.hist.log), SentOf(Apply(j.s, e).hist.log));
    StreamsInStep(j.s, e, j.mine);
    StreamsAnswered(j.s, e, j.answer);
  }

  lemma ElsewhereStep(w: Setup, j: Joint, op: Op)
    requires Linked(w, j)
    ensures Linked(w, Happens(w, j, Elsewhere(op)))
  {
    var track := TrackOf(w.payloadType);
    AcceptedAppend(track, w.t, j.ops, op);
    MatchesMore(Accepted(track, w.t, j.ops), if Feeds(op, track) && !After(w.t, j.ops).closed then [op] else [], j.mine,
                SentOf(j.s.hist.log), SentOf(j.s.hist.log));
  }

  lemma MatchesOne(sends: seq<Op>, op: Op, mine: seq<nat>, sent: seq<Sample>)
    requires Matches(sends, mine, sent) && |sent| == |mine| + 1 && SendsSample(op, sent[|mine|])
    ensures Matches(sends + [op], mine + [|sends|], sent)
  {
    var sends', mine' := sends + [op], mine + [|sends|];
    forall k | 0 <= k < |mine'|
      ensures SendsSample(sends'[mine'[k]], sent[k])
    {
      assert k < |mine| ==> sends'[mine[k]] == sends[mine[k]];
    }
  }

  /** The sample being sent is the last one sent. */
  lemma SendingLast(s: State, mine: seq<nat>)
    requires InStepWith(s, mine) && s.pacer.pc.PSending?
    ensures InHand(s.pacer) && |SentOf(s.hist.log)| == |mine| + 1 && SentOf(s.hist.log)[|mine|] == s.pacer.held[0].value
  {
    var log := s.hist.log;
    SentOfAppended(log[..|log| - 1], log[|log| - 1]);
    assert log == log[..|log| - 1] + [log[|log| - 1]];
  }

  lemma ReturnsAnswered(s: State, answer: Option<Error>)
    requires s.pacer.pc.PSending? && Answered(s.pacer, None)
    ensures Answered(Apply(s, Sent(answer)).pacer, answer)
  {
  }

  lemma SendsMatch(w: Setup, j: Joint, out: Outside)
    requires Linked(w, j) && MayHappen(j, Sends(out))
    ensures var j' := Happens(w, j, Sends(out));
            Matches(Accepted(TrackOf(w.payloadType), w.t, j'.ops), j'.mine, SentOf(j.s.hist.log))
  {
    var track, sends := TrackOf(w.payloadType), Accepted(TrackOf(w.payloadType), w.t, j.ops);
    var op := OpOf(w, j.s.pacer.held[0].value, out);
    SendingLast(j.s, j.mine);
    AcceptedAppend(track, w.t, j.ops, op);
    if After(w.t, j.ops).closed {
      assert sends + [] == sends && j.mine + [] == j.mine;
    } else {
      MatchesOne(sends, op, j.mine, SentOf(j.s.hist.log));
    }
  }

  /** The return of a send leaves the log alone, and the loop, in case of an error. */
  lemma ReturnsLog(s: State, answer: Option<Error>)
    requires s.pacer.pc.PSending?
    ensures var t := Apply(s, Sent(answer));
            && t.hist.log == s.hist.log && !t.pacer.pc.PSending?
            && (InLoop(t.pacer.pc) <==> answer == None)
  {
  }

  lemma SendsStep(w: Setup, j: Joint, out: Outside)
    requires Linked(w, j) && MayHappen(j, Sends(out))
    ensures Linked(w, Happens(w, j, Sends(out)))
  {
    var tx := After(w.t, j.ops);
    var answer := Answer(tx, w.payloadType, out.chunks, out.ok, out.failAt);
    TracedStep(w, j, Sent(answer));
    SendsMatch(w, j, out);
    ReturnsAnswered(j.s, answer);
    ReturnsLog(j.s, answer);
  }

  lemma {:induction false} LinkedRun(w: Setup, j: Joint, hs: seq<Happening>)
    requires Linked(w, j) && CanGo(w, j, hs)
    ensures Linked(w, Goes(w, j, hs))
    decreases |hs|
  {
    if hs != [] {
      match hs[0] {
        case Streams(e) => StreamsStep(w, j, e);
        case Sends(out) => SendsStep(w, j, out);
        case Elsewhere(op) => ElsewhereStep(w, j, op);
      }
      LinkedRun(w, Happens(w, j, hs[0]), hs[1..]);
    }
  }

  lemma BeginLinked(w: Setup)
    ensures Linked(w, Begin(w))
  {
  }

  /** From any source, whatever happens to streamer and transport: the streamer's part is one of its
      own runs, the samples it sent are the accepted sends at `mine`, but for one under way or
      refused, and it has given up over a send exactly when the last answer was an error. */
  lemma EveryRunIsLinked(w: Setup, hs: seq<Happening>)
    requires CanGo(w, Begin(w), hs)
    ensures Linked(w, Goes(w, Begin(w), hs))
  {
    BeginLinked(w);
    LinkedRun(w, Begin(w), hs);
  }

  /** A send makes the streamer give up exactly when the transport is closed or refuses it. */
  lemma SendFailsIff(w: Setup, j: Joint, out: Outside)
    requires Linked(w, j) && MayHappen(j, Sends(out))
    ensures var tx := After(w.t, j.ops);
            Happens(w, j, Sends(out)).s.pacer.reason == Some(SendFailed(Internal))
            <==> tx.closed || Refused(tx.srtp && tx.socket, w.payloadType, out.chunks, out.ok, out.failAt)
  {
  }

  /** Nobody else sends on the streamer's track. */
  ghost predicate Undisturbed(w: Setup, hs: seq<Happening>) {
    forall i :: 0 <= i < |hs| && hs[i].Elsewhere? ==> !Feeds(hs[i].op, TrackOf(w.payloadType))
  }

  lemma {:induction false} UndisturbedRun(w: Setup, j: Joint, hs: seq<Happening>)
    requires CanGo(w, j, hs) && Undisturbed(w, hs)
    requires Everyone(j.mine, |Accepted(TrackOf(w.payloadType), w.t, j.ops)|)
    ensures var j' := Goes(w, j, hs); Everyone(j'.mine, |Accepted(TrackOf(w.payloadType), w.t, j'.ops)|)
    decreases |hs|
  {
    if hs != [] {
      UndisturbedStep(w, j, hs[0]);
      UndisturbedRun(w, Happens(w, j, hs[0]), hs[1..]);
    }
  }

  lemma UndisturbedStep(w: Setup, j: Joint, h: Happening)
    requires MayHappen(j, h) && (h.Elsewhere? ==> !Feeds(h.op, TrackOf(w.payloadType)))
    requires Everyone(j.mine, |Accepted(TrackOf(w.payloadType), w.t, j.ops)|)
    ensures var j' := Happens(w, j, h); Everyone(j'.mine, |Accepted(TrackOf(w.payloadType), w.t, j'.ops)|)
  {
    match h
    case Streams(_) =>
    case Elsewhere(op) => AcceptedAppend(TrackOf(w.payloadType), w.t, j.ops, op);
    case Sends(out) => AcceptedAppend(TrackOf(w.payloadType), w.t, j.ops, OpOf(w, j.s.pacer.held[0].value, out));
  }

  // ----- End to end -----

  /** What was sent are the reader's samples at the positions not muted. */
  lemma SentFromSource(samples: seq<Sample>, error: Error, w: Setup, hs: seq<Happening>)
    requires w.source == Feed(samples, error) && CanGo(w, Begin(w), hs)
    ensures var j := Goes(w, Begin(w), hs);
            && |j.s.hist.log| <= |samples|
            && SentOf(j.s.hist.log) == Picked(samples, Unmuted(j.s.hist.log))
            && (NeverMutes(j.trace) ==> Everyone(Unmuted(j.s.hist.log), |j.s.hist.log|))
  {
    EveryRunIsLinked(w, hs);
    var j := Goes(w, Begin(w), hs);
    StreamedInOrder(samples, error, w.now, j.trace, j.s.hist.log);
  }

  /** For any Opus stream in Ogg, muxed and cut into pages any way and cut off anywhere, and anything
      that happens to streamer and transport, other senders on the track included: the packets with
      bytes in them that were not muted, all but one of which the transport has accepted, play out as
      far as they reached the wire, each in its place. */
  lemma {:induction false} AudioEndToEnd(head: seq<byte>, tags: seq<byte>, packets: seq<seq<byte>>, pages: seq<OggMux.OggPage>,
                      input: seq<byte>, cutOff: seq<byte>, w: Setup, hs: seq<Happening>)
    requires OggMux.IsHead(head) && OggMux.IsTags(tags)
    requires OggMux.Muxes(pages, [head, tags] + packets) && input + cutOff == OggMux.Encode(pages)
    requires var d := OggDemux.Drain(OggDemux.Reader(input, OggDemux.START)); w.source == Feed(d.samples, d.error)
    requires w.payloadType == 111 && CanGo(w, Begin(w), hs)
    ensures var j := Goes(w, Begin(w), hs);
            var log := j.s.hist.log;
            && |log| <= |NonEmptyOf(packets)| && |j.mine| <= |SentOf(log)| <= |j.mine| + 1
            && PlaysOut(RtpOf(Audio, Wire(w.t, j.ops)), Picked(NonEmptyOf(packets), Unmuted(log)),
                        Calls(Audio, w.t, j.ops), j.mine, w.t.audio.seqNo, w.t.audio.ts)
            && (NeverMutes(j.trace) ==> Picked(NonEmptyOf(packets), Unmuted(log)) == NonEmptyOf(packets)[..|log|])
            && (Undisturbed(w, hs) ==> Everyone(j.mine, |Accepted(Audio, w.t, j.ops)|))
  {
    var d := OggDemux.Drain(OggDemux.Reader(input, OggDemux.START));
    var audio, j := NonEmptyOf(packets), Goes(w, Begin(w), hs);
    var log := j.s.hist.log;
    OggMux.DemuxInvertsMux(head, tags, packets, pages);
    OggMux.TruncationIsPrefix(input, cutOff);
    SentFromSource(d.samples, d.error, w, hs);
    EveryRunIsLinked(w, hs);
    AudioCarried(w, j);
    PickedSamples(audio, d.samples, Unmuted(log));
    AudioOnWire(Picked(audio, Unmuted(log)), SentOf(log), w.t, j.ops, j.mine);
    if NeverMutes(j.trace) {
      PickedAll(audio, Unmuted(log));
    }
    if Undisturbed(w, hs) {
      UndisturbedRun(w, Begin(w), hs);
    }
  }

  lemma AudioCarried(w: Setup, j: Joint)
    requires Linked(w, j) && w.payloadType == OPUS_PAYLOAD_TYPE
    ensures CarriesAudio(w.t, j.ops, SentOf(j.s.hist.log), j.mine)
  {
    var sends, sent := Accepted(Audio, w.t, j.ops), SentOf(j.s.hist.log);
    assert forall k :: 0 <= k < |j.mine| ==> SendsSample(sends[j.mine[k]], sent[k]);
  }

  lemma VideoCarried(w: Setup, j: Joint)
    requires Linked(w, j) && w.payloadType != OPUS_PAYLOAD_TYPE
    ensures CarriesVideo(w.t, j.ops, SentOf(j.s.hist.log), j.mine)
  {
    var sends, sent := Accepted(Video, w.t, j.ops), SentOf(j.s.hist.log);
    assert forall k :: 0 <= k < |j.mine| ==> SendsSample(sends[j.mine[k]], sent[k]);
  }

  /** The payloader does its part for this streamer. */
  ghost predicate Payloads(strip: seq<byte> -> seq<byte>, w: Setup, j: Joint) {
    && CarriesVideo(w.t, j.ops, SentOf(j.s.hist.log), j.mine)
    && ChunksJoin(strip, w.t, j.ops, SentOf(j.s.hist.log), j.mine)
  }

  /** For any IVF file, cut off anywhere, and anything that happens to streamer and transport, other
      senders on the track included: the frames that were not muted show out as far as they reached
      the wire, each in its place and, but for the others' ticks, on the file's own time. */
  lemma {:induction false} VideoEndToEnd(h: IvfDemux.FileHeader, frames: seq<IvfDemux.Frame>, input: seq<byte>, cutOff: seq<byte>,
                      strip: seq<byte> -> seq<byte>, w: Setup, hs: seq<Happening>)
    requires h.Valid() && IvfDemux.AllValid(frames) && input + cutOff == h.Encode() + IvfDemux.Encode(frames)
    requires var d := IvfDemux.Drain(IvfDemux.Fresh(input)); w.source == Feed(d.samples, d.error)
    requires w.payloadType != 111 && CanGo(w, Begin(w), hs) && Payloads(strip, w, Goes(w, Begin(w), hs))
    ensures var j := Goes(w, Begin(w), hs);
            var log := j.s.hist.log;
            && |log| <= |frames| && |j.mine| <= |SentOf(log)| <= |j.mine| + 1
            && (forall i :: 0 <= i < |SentOf(log)| ==> SentOf(log)[i].data == frames[Unmuted(log)[i]].data)
            && ShowsOut(strip, SentOf(log), FrameTicks(h.den, h.num), w.t, j.ops, j.mine)
            && (0 < h.den && 0 < h.num ==> AllOnFileTime(h.den, h.num, w.t, j.ops, j.mine))
            && (NeverMutes(j.trace) ==> Everyone(Unmuted(log), |log|))
            && (Undisturbed(w, hs) ==> Everyone(j.mine, |Accepted(Video, w.t, j.ops)|))
  {
    var d := IvfDemux.Drain(IvfDemux.Fresh(input));
    var duration, j := IvfDemux.FrameDuration(h.den, h.num), Goes(w, Begin(w), hs);
    var log := j.s.hist.log;
    IvfDemux.DemuxInvertsMux(h, frames);
    IvfDemux.TruncationIsPrefix(input, cutOff);
    SentFromSource(d.samples, d.error, w, hs);
    EveryRunIsLinked(w, hs);
    PickedFrames(frames, duration, d.samples, Unmuted(log));
    VideoOnWire(strip, SentOf(log), duration, w.t, j.ops, j.mine);
    if 0 < h.den && 0 < h.num {
      ShownOnFileTime(strip, SentOf(log), h.den, h.num, w.t, j.ops, j.mine);
    }
    if Undisturbed(w, hs) {
      UndisturbedRun(w, Begin(w), hs);
    }
  }
}
