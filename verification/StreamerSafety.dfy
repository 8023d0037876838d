/** What every run of the streamer keeps: where samples are, how frames lie on the clock, how
    the pacing loop can end and what it reports. */
module StreamerSafety {
  import opened Media
  import opened Streamer

  predicate InLoop(pc: PacerPc) {
    !(pc.PEnd? || pc.PTakeCallback? || pc.PReport? || pc.PDone?)
  }

  /** The frame is logged, its pace is not. */
  predicate Open(pc: PacerPc) {
    pc.PSending? || pc.PPace?
  }

  // ----- Samples handled -----

  /** The samples among the items, in order. */
  function Values(items: seq<Item>): seq<Sample> {
    if items == [] then []
    else
      var last := items[|items| - 1];
      Values(items[..|items| - 1]) + if last.Ok? then [last.value] else []
  }

  function Frames(log: seq<Frame>): (ss: seq<Sample>)
    ensures |ss| == |log|
    ensures forall k :: 0 <= k < |log| ==> ss[k] == log[k].sample
  {
    if log == [] then [] else Frames(log[..|log| - 1]) + [log[|log| - 1].sample]
  }

  /** The samples handed to the transport: those handled while not muted. */
  function SentOf(log: seq<Frame>): seq<Sample> {
    if log == [] then []
    else
      var last := log[|log| - 1];
      SentOf(log[..|log| - 1]) + if last.muted then [] else [last.sample]
  }

  function TotalDuration(log: seq<Frame>): nat {
    if log == [] then 0 else TotalDuration(log[..|log| - 1]) + log[|log| - 1].sample.duration
  }

  /** Every sample consumed was handled once, in order. */
  ghost predicate Logged(p: PacerTask, h: History) {
    Frames(h.log) == Values(h.consumed) + if Open(p.pc) && InHand(p) then [p.held[0].value] else []
  }

  // ----- Frames on the clock -----

  function Due(f: Frame): nat {
    f.slot + f.sample.duration
  }

  /** The deadline left behind by a frame. */
  function Adjusted(f: Frame, p: Pace): nat {
    if p.resynced then p.at else Due(f)
  }

  ghost predicate PaceOk(f: Frame, p: Pace) {
    f.at <= p.at && (p.resynced <==> p.at > Due(f) + SLACK)
  }

  ghost predicate NextOk(f: Frame, p: Pace, g: Frame) {
    && p.at <= g.at && Adjusted(f, p) <= g.slot
    && (!g.restarted ==> g.slot == Adjusted(f, p))
  }

  ghost predicate Timeline(log: seq<Frame>, paces: seq<Pace>) {
    && |paces| <= |log| <= |paces| + 1
    && (forall k :: 0 <= k < |log| ==> log[k].slot <= log[k].at)
    && (forall k :: 0 <= k < |paces| ==> PaceOk(log[k], paces[k]))
    && (forall k, l :: 0 <= k && l == k + 1 < |log| ==> NextOk(log[k], paces[k], log[l]))
  }

  /** The deadline against the last frame and the clock, between two frames. */
  ghost predicate Between(now: nat, p: PacerTask, f: Frame, left: Pace) {
    if (p.pc.PMuted? || p.pc.PSend?) && p.restarted then Adjusted(f, left) <= p.deadline
    else Adjusted(f, left) == p.deadline
  }

  ghost predicate Clocked(now: nat, p: PacerTask, log: seq<Frame>, paces: seq<Pace>, nsSent: nat) {
    && Timeline(log, paces)
    && (log != [] ==> log[|log| - 1].at <= now)
    && (paces != [] ==> paces[|paces| - 1].at <= now)
    && nsSent == TotalDuration(log[..|paces|]) % TWO64
    && (InLoop(p.pc) ==>
          if Open(p.pc) then
            && |log| == |paces| + 1 && InHand(p)
            && log[|paces|].slot == p.deadline && log[|paces|].sample == p.held[0].value
          else
            && |log| == |paces|
            && (p.deadline <= now || (p.pc.PJoin? && !p.pc.slept))
            && (log != [] ==> Between(now, p, log[|log| - 1], paces[|log| - 1])))
  }

  // ----- Ends -----

  /** How the reader ends, how the loop ends, and what an empty hand means. */
  ghost predicate Endings(f: Flags, r: ReaderTask, chan: seq<Item>, p: PacerTask, consumed: seq<Item>) {
    && (!f.running ==> f.everStopped)
    && (r.pc.RDone? ==> f.everStopped || p.pc.PDone?
                        || (r.pc.unsent == [] && r.read != [] && r.read[|r.read| - 1].Err?))
    && (p.reason.None? <==> InLoop(p.pc))
    && (InLoop(p.pc) ==> AllOk(consumed))
    && (InLoop(p.pc) && !p.pc.PFirst? && !(p.pc.PJoin? && !p.pc.received) && p.held == [] ==> r.pc.RDone? && chan == [])
    && (p.reason.Some? ==> match p.reason.value
          case SourceEnd(e) => consumed != [] && consumed[|consumed| - 1] == Err(e)
          case SendFailed(_) => true
          case _ => f.everStopped)
  }

  /** The callback is taken and called at most once, with the error the loop ended with. */
  ghost predicate ReportedOnce(p: PacerTask, reported: seq<Report>) {
    && |reported| <= 1 && (!p.pc.PDone? ==> reported == [])
    && forall k :: 0 <= k < |reported| ==> reported[k].error == EndError(p.reason)
  }

  ghost predicate Safe(s: State) {
    && Conserved(s)
    && Logged(s.pacer, s.hist)
    && Clocked(s.now, s.pacer, s.hist.log, s.hist.paces, s.nsSent)
    && Endings(s.flags, s.reader, s.chan, s.pacer, s.hist.consumed)
    && ReportedOnce(s.pacer, s.reported)
  }

  // ----- Every step keeps the log -----

  lemma LoggedHandled(s: State, muted: bool, pc: PacerPc)
    requires Logged(s.pacer, s.hist) && InHand(s.pacer) && !Open(s.pacer.pc) && Open(pc)
    ensures var t := Handled(s, muted, pc); Logged(t.pacer, t.hist)
  {
    var t := Handled(s, muted, pc);
    assert t.hist.log[..|s.hist.log|] == s.hist.log;
  }

  lemma ValuesAppend(items: seq<Item>, item: Item)
    ensures Values(items + [item]) == Values(items) + if item.Ok? then [item.value] else []
  {
    assert (items + [item])[..|items|] == items;
  }

  lemma LoggedWalk(p: PacerTask, f: Flags, now: nat, h: History)
    requires Logged(p, h) && Walks(p.pc)
    ensures Logged(PacerWalk(p, f, now), h)
  {
  }

  lemma LoggedHandle(s: State)
    requires Logged(s.pacer, s.hist) && Hand(s.pacer) && Handles(s)
    ensures var t := HandleStep(s); Logged(t.pacer, t.hist)
  {
    match s.pacer.pc
    case PMuted => LoggedHandled(s, true, PPace);
    case PSend => LoggedHandled(s, false, PSending);
    case PPace =>
      assert s.pacer.held == [s.pacer.held[0]];
      ValuesAppend(s.hist.consumed, s.pacer.held[0]);
  }

  lemma LoggedTake(s: State)
    requires Logged(s.pacer, s.hist) && Hand(s.pacer) && s.pacer.pc.PTake?
    ensures var t := Take(s); Logged(t.pacer, t.hist)
  {
    if s.pacer.held != [] {
      assert s.pacer.held == [s.pacer.held[0]];
      ValuesAppend(s.hist.consumed, s.pacer.held[0]);
    }
  }

  lemma LoggedReceived(s: State, pc: PacerPc)
    requires Logged(s.pacer, s.hist) && !Open(s.pacer.pc) && !Open(pc)
    ensures var t := Received(s, pc); Logged(t.pacer, t.hist)
  {
  }

  lemma LoggedEnd(s: State)
    requires Logged(s.pacer, s.hist) && !InLoop(s.pacer.pc)
    ensures var t := EndStep(s); Logged(t.pacer, t.hist)
  {
  }

  lemma {:induction false} LoggedPacer(s: State)
    requires Logged(s.pacer, s.hist) && Hand(s.pacer) && PacerEnabled(s)
    ensures var t := PacerStep(s); Logged(t.pacer, t.hist)
  {
    if Handles(s) {
      LoggedHandle(s);
    } else if Walks(s.pacer.pc) {
      LoggedWalk(s.pacer, s.flags, s.now, s.hist);
    } else if s.pacer.pc.PTake? {
      LoggedTake(s);
    } else if s.pacer.pc.PFirst? {
      LoggedReceived(s, PLoop);
    } else {
      LoggedEnd(s);
    }
  }

  lemma LoggedConsumed(s: State, reason: Reason)
    requires Logged(s.pacer, s.hist) && Hand(s.pacer) && s.pacer.pc.PSending?
    ensures var t := EndConsuming(s, reason); Logged(t.pacer, t.hist)
  {
    assert s.pacer.held == [s.pacer.held[0]];
    ValuesAppend(s.hist.consumed, s.pacer.held[0]);
  }

  /** Steps that leave the pacing task's log and what is in hand alone. */
  lemma LoggedRest(p: PacerTask, q: PacerTask, h: History)
    requires Logged(p, h) && q.held == p.held && (Open(q.pc) <==> Open(p.pc))
    ensures Logged(q, h)
  {
  }

  lemma {:induction false} LoggedStep(s: State, e: Event)
    requires Logged(s.pacer, s.hist) && Hand(s.pacer) && Enabled(s, e)
    ensures var t := Apply(s, e); Logged(t.pacer, t.hist)
  {
    match e
    case Pacer => LoggedPacer(s);
    case Sent(None) => LoggedRest(s.pacer, Apply(s, e).pacer, s.hist);
    case Sent(Some(error)) => LoggedConsumed(s, SendFailed(error));
    case Receive => LoggedReceived(s, s.pacer.pc.(received := true));
    case SleepEnds => LoggedRest(s.pacer, Apply(s, e).pacer, s.hist);
    case Tick(_) =>
    case Caller(_) =>
    case Reader =>
    case ReadStalls =>
  }

  // ----- Every step keeps the timeline -----

  lemma ClockedHandled(s: State, muted: bool, pc: PacerPc)
    requires Clocked(s.now, s.pacer, s.hist.log, s.hist.paces, s.nsSent) && InHand(s.pacer)
    requires (s.pacer.pc.PMuted? || s.pacer.pc.PSend?) && Open(pc)
    ensures var t := Handled(s, muted, pc); Clocked(t.now, t.pacer, t.hist.log, t.hist.paces, t.nsSent)
  {
    var t := Handled(s, muted, pc);
    assert t.hist.log[..|s.hist.paces|] == s.hist.log[..|s.hist.paces|];
  }

  lemma ClockedPaced(s: State)
    requires Clocked(s.now, s.pacer, s.hist.log, s.hist.paces, s.nsSent) && s.pacer.pc.PPace? && InHand(s.pacer)
    ensures var t := Paced(s); Clocked(t.now, t.pacer, t.hist.log, t.hist.paces, t.nsSent)
  {
    var n, log := |s.hist.paces|, s.hist.log;
    assert log[..n + 1][..n] == log[..n];
    ModSum(TotalDuration(log[..n]), s.pacer.held[0].value.duration);
  }

  lemma ModSum(a: nat, b: nat)
    ensures (a % TWO64 + b % TWO64) % TWO64 == (a + b) % TWO64
  {
  }

  lemma ClockedWalk(now: nat, p: PacerTask, f: Flags, log: seq<Frame>, paces: seq<Pace>, nsSent: nat)
    requires Clocked(now, p, log, paces, nsSent) && Walks(p.pc) && (p.pc.PJoin? ==> p.pc.slept)
    ensures Clocked(now, PacerWalk(p, f, now), log, paces, nsSent)
  {
  }

  lemma ClockedHandle(s: State)
    requires Clocked(s.now, s.pacer, s.hist.log, s.hist.paces, s.nsSent) && Handles(s)
    ensures var t := HandleStep(s); Clocked(t.now, t.pacer, t.hist.log, t.hist.paces, t.nsSent)
  {
    match s.pacer.pc
    case PMuted => ClockedHandled(s, true, PPace);
    case PSend => ClockedHandled(s, false, PSending);
    case PPace => ClockedPaced(s);
  }

  lemma ClockedTake(s: State)
    requires Clocked(s.now, s.pacer, s.hist.log, s.hist.paces, s.nsSent) && s.pacer.pc.PTake?
    ensures var t := Take(s); Clocked(t.now, t.pacer, t.hist.log, t.hist.paces, t.nsSent)
  {
  }

  lemma ClockedReceived(s: State, pc: PacerPc)
    requires Clocked(s.now, s.pacer, s.hist.log, s.hist.paces, s.nsSent)
    requires (s.pacer.pc.PFirst? && pc.PLoop?) || (s.pacer.pc.PJoin? && pc == s.pacer.pc.(received := true))
    ensures var t := Received(s, pc); Clocked(t.now, t.pacer, t.hist.log, t.hist.paces, t.nsSent)
  {
  }

  lemma ClockedEnd(s: State)
    requires Clocked(s.now, s.pacer, s.hist.log, s.hist.paces, s.nsSent) && !InLoop(s.pacer.pc)
    ensures var t := EndStep(s); Clocked(t.now, t.pacer, t.hist.log, t.hist.paces, t.nsSent)
  {
  }

  lemma ClockedPacer(s: State)
    requires Clocked(s.now, s.pacer, s.hist.log, s.hist.paces, s.nsSent) && Hand(s.pacer) && PacerEnabled(s)
    ensures var t := PacerStep(s); Clocked(t.now, t.pacer, t.hist.log, t.hist.paces, t.nsSent)
  {
    if Handles(s) {
      ClockedHandle(s);
    } else if Walks(s.pacer.pc) {
      ClockedWalk(s.now, s.pacer, s.flags, s.hist.log, s.hist.paces, s.nsSent);
    } else if s.pacer.pc.PTake? {
      ClockedTake(s);
    } else if s.pacer.pc.PFirst? {
      ClockedReceived(s, PLoop);
    } else {
      ClockedEnd(s);
    }
  }

  lemma ClockedTick(now: nat, d: nat, p: PacerTask, log: seq<Frame>, paces: seq<Pace>, nsSent: nat)
    requires Clocked(now, p, log, paces, nsSent)
    ensures Clocked(now + d, p, log, paces, nsSent)
  {
  }

  lemma ClockedReturns(now: nat, p: PacerTask, q: PacerTask, log: seq<Frame>, paces: seq<Pace>, nsSent: nat)
    requires Clocked(now, p, log, paces, nsSent) && p.pc.PSending?
    requires q == p.(pc := PPace) || (q.pc.PEnd? && q.deadline == p.deadline)
    ensures Clocked(now, q, log, paces, nsSent)
  {
  }

  lemma ClockedSlept(now: nat, p: PacerTask, log: seq<Frame>, paces: seq<Pace>, nsSent: nat)
    requires Clocked(now, p, log, paces, nsSent) && p.pc.PJoin? && now >= p.deadline
    ensures Clocked(now, p.(pc := p.pc.(slept := true)), log, paces, nsSent)
  {
  }

  lemma {:induction false} ClockedStep(s: State, e: Event)
    requires Clocked(s.now, s.pacer, s.hist.log, s.hist.paces, s.nsSent) && Hand(s.pacer) && Enabled(s, e)
    ensures var t := Apply(s, e); Clocked(t.now, t.pacer, t.hist.log, t.hist.paces, t.nsSent)
  {
    match e
    case Pacer => ClockedPacer(s);
    case Receive => ClockedReceived(s, s.pacer.pc.(received := true));
    case Tick(d) => ClockedTick(s.now, d, s.pacer, s.hist.log, s.hist.paces, s.nsSent);
    case Sent(_) => ClockedReturns(s.now, s.pacer, Apply(s, e).pacer, s.hist.log, s.hist.paces, s.nsSent);
    case SleepEnds => ClockedSlept(s.now, s.pacer, s.hist.log, s.hist.paces, s.nsSent);
    case Caller(_) =>
    case Reader =>
    case ReadStalls =>
  }

  // ----- Every step keeps the endings -----

  lemma EndingsWalk(s: State)
    requires Endings(s.flags, s.reader, s.chan, s.pacer, s.hist.consumed)
    requires Walks(s.pacer.pc) && (s.pacer.pc.PJoin? ==> s.pacer.pc.received)
    ensures Endings(s.flags, s.reader, s.chan, PacerWalk(s.pacer, s.flags, s.now), s.hist.consumed)
  {
  }

  /** An empty hand at the top of the loop means the reader left without an error. */
  lemma EndingsTake(s: State)
    requires Conserved(s) && Endings(s.flags, s.reader, s.chan, s.pacer, s.hist.consumed) && s.pacer.pc.PTake?
    ensures var t := Take(s); Endings(t.flags, t.reader, t.chan, t.pacer, t.hist.consumed)
  {
    if s.pacer.held == [] && !s.flags.everStopped {
      assert false;
    }
  }

  lemma EndingsHandle(s: State)
    requires Hand(s.pacer) && Endings(s.flags, s.reader, s.chan, s.pacer, s.hist.consumed) && Handles(s)
    ensures var t := HandleStep(s); Endings(t.flags, t.reader, t.chan, t.pacer, t.hist.consumed)
  {
  }

  lemma EndingsEnd(s: State)
    requires Endings(s.flags, s.reader, s.chan, s.pacer, s.hist.consumed) && !InLoop(s.pacer.pc) && PacerEnabled(s)
    ensures var t := EndStep(s); Endings(t.flags, t.reader, t.chan, t.pacer, t.hist.consumed)
  {
  }

  lemma {:induction false} EndingsPacer(s: State)
    requires Conserved(s) && Endings(s.flags, s.reader, s.chan, s.pacer, s.hist.consumed) && PacerEnabled(s)
    ensures var t := PacerStep(s); Endings(t.flags, t.reader, t.chan, t.pacer, t.hist.consumed)
  {
    if Handles(s) {
      EndingsHandle(s);
    } else if Walks(s.pacer.pc) {
      EndingsWalk(s);
    } else if s.pacer.pc.PTake? {
      EndingsTake(s);
    } else if s.pacer.pc.PFirst? {
      EndingsReceive(s, PLoop);
    } else {
      EndingsEnd(s);
    }
  }

  lemma EndingsReader(s: State)
    requires Conserved(s) && Endings(s.flags, s.reader, s.chan, s.pacer, s.hist.consumed) && ReaderEnabled(s)
    ensures var t := ReaderStep(s); Endings(t.flags, t.reader, t.chan, t.pacer, t.hist.consumed)
  {
  }

  lemma EndingsReceive(s: State, pc: PacerPc)
    requires Endings(s.flags, s.reader, s.chan, s.pacer, s.hist.consumed) && s.pacer.held == []
    requires (s.pacer.pc.PFirst? && pc.PLoop?) || (s.pacer.pc.PJoin? && pc == s.pacer.pc.(received := true))
    requires s.chan != [] || s.reader.pc.RDone?
    ensures var t := Received(s, pc); Endings(t.flags, t.reader, t.chan, t.pacer, t.hist.consumed)
  {
  }

  lemma EndingsCalled(s: State, call: Request)
    requires Endings(s.flags, s.reader, s.chan, s.pacer, s.hist.consumed)
    ensures var t := Called(s, call); Endings(t.flags, t.reader, t.chan, t.pacer, t.hist.consumed)
  {
  }

  lemma EndingsStall(s: State)
    requires Endings(s.flags, s.reader, s.chan, s.pacer, s.hist.consumed) && s.reader.pc.RRead?
    ensures Endings(s.flags, AfterRead(s.reader, Err(Internal)), s.chan, s.pacer, s.hist.consumed)
  {
  }

  lemma EndingsFailed(s: State, error: Error)
    requires Endings(s.flags, s.reader, s.chan, s.pacer, s.hist.consumed) && s.pacer.pc.PSending?
    ensures var t := EndConsuming(s, SendFailed(error)); Endings(t.flags, t.reader, t.chan, t.pacer, t.hist.consumed)
  {
  }

  lemma EndingsMoved(s: State, pc: PacerPc)
    requires Endings(s.flags, s.reader, s.chan, s.pacer, s.hist.consumed) && Hand(s.pacer)
    requires (s.pacer.pc.PSending? && pc.PPace?) || (s.pacer.pc.PJoin? && pc == s.pacer.pc.(slept := true))
    ensures Endings(s.flags, s.reader, s.chan, s.pacer.(pc := pc), s.hist.consumed)
  {
  }

  lemma {:induction false} EndingsStep(s: State, e: Event)
    requires Conserved(s) && Endings(s.flags, s.reader, s.chan, s.pacer, s.hist.consumed) && Enabled(s, e)
    ensures var t := Apply(s, e); Endings(t.flags, t.reader, t.chan, t.pacer, t.hist.consumed)
  {
    match e
    case Pacer => EndingsPacer(s);
    case Reader => EndingsReader(s);
    case Receive => EndingsReceive(s, s.pacer.pc.(received := true));
    case Caller(call) => EndingsCalled(s, call);
    case ReadStalls => EndingsStall(s);
    case Sent(None) => EndingsMoved(s, PPace);
    case Sent(Some(error)) => EndingsFailed(s, error);
    case SleepEnds => EndingsMoved(s, s.pacer.pc.(slept := true));
    case Tick(_) =>
  }

  lemma ReportedStep(s: State, e: Event)
    requires ReportedOnce(s.pacer, s.reported) && Enabled(s, e)
    ensures ReportedOnce(Apply(s, e).pacer, Apply(s, e).reported)
  {
  }
}
