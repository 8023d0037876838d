/** Sender reports and closing, over any history of the transport: when reports are sent, what clock
    readings they carry, what a send answers, and that a closed transport stays silent. */
module RtpReports {
  import opened Media
  import opened RtpTransport
  import opened RtpTrace
  import opened RtpNumbering

  // ----- Which reports an operation sends -----

  /** The tracks of the reports among some packets, in order. */
  function ReportedTracks(ps: seq<Packet>): seq<Track> {
    if ps == [] then []
    else
      var last := ps[|ps| - 1];
      ReportedTracks(ps[..|ps| - 1]) + if last.SenderReport? then [last.track] else []
  }

  lemma {:induction false} ReportedConcat(a: seq<Packet>, b: seq<Packet>)
    ensures ReportedTracks(a + b) == ReportedTracks(a) + ReportedTracks(b)
    decreases |b|
  {
    if b == [] {
      EmptyEnds(a);
      EmptyEnds(ReportedTracks(a));
    } else {
      var front, last := b[..|b| - 1], b[|b| - 1];
      assert (a + b)[..|a + b| - 1] == a + front;
      ReportedConcat(a, front);
      Assoc(ReportedTracks(a), ReportedTracks(front), if last.SenderReport? then [last.track] else []);
    }
  }

  lemma {:induction false} MediaReportsNothing(ps: seq<Packet>)
    requires forall i :: 0 <= i < |ps| ==> ps[i].Rtp?
    ensures ReportedTracks(ps) == []
  {
    if ps != [] {
      MediaReportsNothing(ps[..|ps| - 1]);
    }
  }

  /** Reports are due at the first send accepted since the start, a reset or a close, and whenever the
      worker's timer asks for them after that; with a cipher, and for the send's own, a socket. */
  predicate ReportsDue(t: Tx, op: Op) {
    && !t.closed && t.srtp
    && ((IsSend(op) && t.epoch.None? && t.socket) || (op.Report? && t.epoch.Some?))
  }

  predicate MayReport(op: Op) {
    IsSend(op) || op.Report?
  }

  lemma OneReported(track: Track, s: Sender, ntp: nat)
    ensures ReportedTracks([ReportOf(track, s, ntp)]) == [track]
  {
    assert [ReportOf(track, s, ntp)][..0] == [];
  }

  lemma SealedReported(t: Tx, ntp: nat, sealed: Sealed)
    ensures ReportedTracks(Reports(t, ntp, sealed))
            == if t.epoch.Some? && t.srtp then OnePerTrack(sealed) else []
  {
    if t.epoch.Some? && t.srtp {
      OneReported(Audio, t.audio, ntp);
      OneReported(Video, t.video, ntp);
      ReportedConcat(if sealed.audio then [ReportOf(Audio, t.audio, ntp)] else [],
                     if sealed.video then [ReportOf(Video, t.video, ntp)] else []);
    }
  }

  function OnePerTrack(sealed: Sealed): seq<Track> {
    (if sealed.audio then [Audio] else []) + (if sealed.video then [Video] else [])
  }

  lemma MediaReports(t: Tx, op: Op)
    requires IsSend(op) && !t.closed
    ensures ReportedTracks(MediaStep(t, op).1) == ReportedTracks(StartEpoch(t, op.ntp, op.sealed).1)
  {
    var (t1, reports) := StartEpoch(t, op.ntp, op.sealed);
    var sent := Transmit(t1, op).1;
    MediaReportsNothing(sent);
    ReportedConcat(reports, sent);
    EmptyEnds(ReportedTracks(reports));
  }

  lemma StartReports(t: Tx, ntp: nat, sealed: Sealed)
    ensures ReportedTracks(StartEpoch(t, ntp, sealed).1)
            == if t.epoch.None? && t.srtp && t.socket then OnePerTrack(sealed) else []
  {
    SealedReported(StartEpoch(t, ntp, sealed).0, ntp, sealed);
  }

  /** An operation reports exactly when reports are due, one for each track that can be sealed. */
  lemma {:induction false} WhichReports(t: Tx, op: Op)
    ensures ReportedTracks(Step(t, op).1)
            == if MayReport(op) && ReportsDue(t, op) then OnePerTrack(op.sealed) else []
  {
    if IsSend(op) && !t.closed {
      MediaReports(t, op);
      StartReports(t, op.ntp, op.sealed);
    } else if op.Report? {
      SealedReported(t, op.ntp, op.sealed);
    }
  }

  /** The epoch is there exactly when a send has been accepted since the start, a reset or a close. */
  predicate Begun(t: Tx, ops: seq<Op>) {
    if ops == [] then t.epoch.Some?
    else
      var front, op := ops[..|ops| - 1], ops[|ops| - 1];
      var open := !After(t, front).closed;
      !op.Reset? && !(op.Close? && open) && (Begun(t, front) || (IsSend(op) && open))
  }

  lemma {:induction false} EpochIff(t: Tx, ops: seq<Op>)
    ensures After(t, ops).epoch.Some? <==> Begun(t, ops)
    decreases |ops|
  {
    if ops != [] {
      EpochIff(t, ops[..|ops| - 1]);
    }
  }

  // ----- What clock readings they carry -----

  /** The report was sent by operation i: it shows that operation's clock reading, and as its RTP time
      the clock its track's calls before then have reached. */
  ghost predicate TimedBy(t: Tx, ops: seq<Op>, report: Packet, i: nat) {
    && report.SenderReport? && i < |ops| && MayReport(ops[i]) && report.ntp == ops[i].ntp
    && report.rtpTime == Stamp(SenderOf(t, report.track).ts, TicksAll(Calls(report.track, t, ops[..i])))
  }

  /** Inside one operation. */
  lemma ReportTimes(t: Tx, op: Op, k: nat)
    requires k < |Step(t, op).1| && Step(t, op).1[k].SenderReport?
    ensures var p := Step(t, op).1[k];
            MayReport(op) && p.ntp == op.ntp && p.rtpTime == SenderOf(t, p.track).ts
  {
  }

  lemma NewReportTimed(t: Tx, ops: seq<Op>, op: Op, k: nat)
    requires k < |Step(After(t, ops), op).1| && Step(After(t, ops), op).1[k].SenderReport?
    ensures TimedBy(t, ops + [op], Step(After(t, ops), op).1[k], |ops|)
  {
    var p := Step(After(t, ops), op).1[k];
    ReportTimes(After(t, ops), op, k);
    WireLaw(p.track, t, ops);
    assert (ops + [op])[..|ops|] == ops;
  }

  lemma OldReportTimed(t: Tx, ops: seq<Op>, op: Op, report: Packet, i: nat)
    requires TimedBy(t, ops, report, i)
    ensures TimedBy(t, ops + [op], report, i)
  {
    assert (ops + [op])[..i] == ops[..i];
  }

  ghost predicate Timed(t: Tx, ops: seq<Op>, report: Packet) {
    exists i :: TimedBy(t, ops, report, i)
  }

  lemma TimedStep(t: Tx, front: seq<Op>, op: Op, w: nat)
    requires w < |Wire(t, front) + Step(After(t, front), op).1| && (Wire(t, front) + Step(After(t, front), op).1)[w].SenderReport?
    requires w < |Wire(t, front)| ==> Timed(t, front, Wire(t, front)[w])
    ensures Timed(t, front + [op], (Wire(t, front) + Step(After(t, front), op).1)[w])
  {
    var before := Wire(t, front);
    if w < |before| {
      var i :| TimedBy(t, front, before[w], i);
      OldReportTimed(t, front, op, before[w], i);
    } else {
      NewReportTimed(t, front, op, w - |before|);
    }
  }

  /** Over any history: every report on the wire shows the clock reading of its operation, and the RTP
      time its track has reached there, calls that sent nothing included. */
  lemma {:induction false} EveryReportTimed(t: Tx, ops: seq<Op>)
    ensures forall w: nat :: w < |Wire(t, ops)| && Wire(t, ops)[w].SenderReport? ==> Timed(t, ops, Wire(t, ops)[w])
    decreases |ops|
  {
    if ops != [] {
      var front, op := ops[..|ops| - 1], ops[|ops| - 1];
      SplitLast(ops);
      EveryReportTimed(t, front);
      forall w: nat | w < |Wire(t, ops)| && Wire(t, ops)[w].SenderReport?
        ensures Timed(t, ops, Wire(t, ops)[w])
      {
        TimedStep(t, front, op, w);
      }
    }
  }

  /** An epoch is where operation i, a send, found the clock and both tracks. */
  ghost predicate EpochFrom(t: Tx, ops: seq<Op>, epoch: Epoch, i: nat) {
    && i < |ops| && IsSend(ops[i]) && epoch.ntp == ops[i].ntp
    && epoch.audioTs == Stamp(t.audio.ts, TicksAll(Calls(Audio, t, ops[..i])))
    && epoch.videoTs == Stamp(t.video.ts, TicksAll(Calls(Video, t, ops[..i])))
  }

  lemma EpochOfStep(t: Tx, op: Op)
    requires Step(t, op).0.epoch.Some?
    ensures Step(t, op).0.epoch == t.epoch
            || (IsSend(op) && Step(t, op).0.epoch.value == Epoch(op.ntp, t.audio.ts, t.video.ts))
  {
  }

  lemma {:induction false} EpochTimed(t: Tx, ops: seq<Op>)
    requires t.epoch == None && After(t, ops).epoch.Some?
    ensures exists i: nat :: EpochFrom(t, ops, After(t, ops).epoch.value, i)
    decreases |ops|
  {
    if ops != [] {
      var front, op := ops[..|ops| - 1], ops[|ops| - 1];
      var before := After(t, front);
      EpochOfStep(before, op);
      if Step(before, op).0.epoch == before.epoch {
        EpochTimed(t, front);
        var i: nat :| EpochFrom(t, front, before.epoch.value, i);
        assert front[..i] == ops[..i];
        assert EpochFrom(t, ops, before.epoch.value, i);
      } else {
        WireLaw(Audio, t, front);
        WireLaw(Video, t, front);
        assert EpochFrom(t, ops, After(t, ops).epoch.value, |front|);
      }
    }
  }

  // ----- What a send answers -----

  /** With the link up, a send answers success exactly when all of its payloads go on the wire (a frame
      cut into no chunks has none to send); one answered with an error puts nothing there. With the link
      down only a packet that cannot be made or a frame that cannot be cut fails. */
  lemma AnswerMeans(t: Tx, payloadType: byte, payload: seq<byte>, duration: nat, ntp: nat,
                    chunks: Option<seq<seq<byte>>>, ok: bool, failAt: Option<nat>, sealed: Sealed)
    requires !t.closed
    ensures var op := MediaOp(payloadType, payload, duration, ntp, chunks, ok, failAt, sealed);
            var sent := Sent(if payloadType == 111 then Audio else Video, t, op);
            && (payloadType == 111 <==> op.SendAudio?)
            && (Answer(t, payloadType, chunks, ok, failAt) != None ==> sent == [])
            && (t.srtp && t.socket ==>
                  (Answer(t, payloadType, chunks, ok, failAt) == None
                   <==> |sent| == |PayloadsOf(op)| && (op.SendVideo? ==> op.chunks.Some?)))
            && (!(t.srtp && t.socket) ==>
                  (Answer(t, payloadType, chunks, ok, failAt) == None <==> if payloadType == 111 then ok else chunks.Some?))
  {
  }

  // ----- Closing -----

  lemma ClosedStep(t: Tx, op: Op)
    requires t.closed
    ensures Step(t, op).0.closed && Step(t, op).1 == []
  {
  }

  lemma {:induction false} ClosedRun(t: Tx, ops: seq<Op>)
    requires t.closed
    ensures After(t, ops).closed && Wire(t, ops) == []
    decreases |ops|
  {
    if ops != [] {
      var front := ops[..|ops| - 1];
      ClosedRun(t, front);
      ClosedStep(After(t, front), ops[|ops| - 1]);
    }
  }

  lemma {:induction false} HistoryConcat(t: Tx, a: seq<Op>, b: seq<Op>)
    ensures After(t, a + b) == After(After(t, a), b)
    ensures Wire(t, a + b) == Wire(t, a) + Wire(After(t, a), b)
    decreases |b|
  {
    if b == [] {
      EmptyEnds(a);
      EmptyEnds(Wire(t, a));
    } else {
      var front, last := b[..|b| - 1], b[|b| - 1];
      assert (a + b)[..|a + b| - 1] == a + front;
      HistoryConcat(t, a, front);
      Assoc(Wire(t, a), Wire(After(t, a), front), Step(After(t, a + front), last).1);
    }
  }

  /** Once closed, whatever is asked of the transport: nothing more on the wire, no send accepted, and
      every send answered with an error. */
  lemma CloseIsFinal(t: Tx, ops: seq<Op>, more: seq<Op>)
    ensures var all := ops + [Close] + more;
            && Wire(t, all) == Wire(t, ops) && After(t, all).closed
            && forall payloadType, chunks, ok, failAt :: Answer(After(t, all), payloadType, chunks, ok, failAt) == Some(Internal)
  {
    var closed := ops + [Close];
    assert closed[..|ops|] == ops;
    EmptyEnds(Wire(t, ops));
    ClosedRun(After(t, closed), more);
    HistoryConcat(t, closed, more);
  }
}
