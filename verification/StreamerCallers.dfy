/** What a caller of the streamer can rely on after its call, whatever the tasks, the clock and
    the other callers do next. */
module StreamerCallers {
  import opened Media
  import opened Streamer
  import opened StreamerSafety
  import opened StreamerRuns

  // ----- pause, stop -----

  /** Until someone resumes or starts the streamer at most one more frame is sent. */
  ghost predicate SendsOneMoreAtMost(s: State) {
    forall es :: Possible(s, es) && NoRelease(es) ==> |SentOf(Run(s, es).hist.log)| <= |SentOf(s.hist.log)| + 1
  }

  lemma BlockedSendsOne(s: State)
    requires Blocked(s)
    ensures SendsOneMoreAtMost(s)
  {
    forall es | Possible(s, es) && NoRelease(es)
      ensures |SentOf(Run(s, es).hist.log)| <= |SentOf(s.hist.log)| + 1
    {
      AtMostOneAfterBlocking(s, es);
    }
  }

  /** Whether the reader is past its tests and will still read once: at the read itself, or at the last
      test before it with the streamer running. */
  function AboutToRead(s: State): nat {
    if s.reader.pc.RRead? || (s.reader.pc.RCheck? && s.flags.running) then 1 else 0
  }

  lemma ReaderWaitsStep(s: State)
    requires Blocked(s) && ReaderEnabled(s)
    ensures var t := ReaderStep(s);
            t.flags == s.flags && |t.reader.read| + AboutToRead(t) <= |s.reader.read| + AboutToRead(s)
  {
  }

  lemma {:induction false} WaitingStep(s: State, e: Event)
    requires Blocked(s) && Enabled(s, e) && e != Caller(Resume) && e != Caller(Start)
    ensures var t := Apply(s, e);
            Blocked(t) && |t.reader.read| + AboutToRead(t) <= |s.reader.read| + AboutToRead(s)
  {
    match e
    case Reader => ReaderWaitsStep(s);
    case Pacer => assert PacerStep(s).reader == s.reader && PacerStep(s).flags == s.flags;
    case _ =>
  }

  /** From a pause until the matching resume, and from a stop on, the reader reads nothing more, but
      for the one read it was about to make. */
  lemma {:induction false} ReaderWaitsRun(s: State, es: seq<Event>)
    requires Blocked(s) && Possible(s, es) && NoRelease(es)
    ensures |Run(s, es).reader.read| <= |s.reader.read| + AboutToRead(s)
    ensures !s.reader.pc.RCheck? && !s.reader.pc.RRead? ==> |Run(s, es).reader.read| <= |s.reader.read|
    decreases |es|
  {
    if es != [] {
      WaitingStep(s, es[0]);
      ReaderWaitsRun(Apply(s, es[0]), es[1..]);
    }
  }

  ghost predicate ReadsOneMoreAtMost(s: State) {
    forall es :: Possible(s, es) && NoRelease(es) ==> |Run(s, es).reader.read| <= |s.reader.read| + AboutToRead(s)
  }

  lemma BlockedReadsOne(s: State)
    requires Blocked(s)
    ensures ReadsOneMoreAtMost(s)
  {
    forall es | Possible(s, es) && NoRelease(es)
      ensures |Run(s, es).reader.read| <= |s.reader.read| + AboutToRead(s)
    {
      ReaderWaitsRun(s, es);
    }
  }

  /** Nothing is reported unless a new callback is registered. */
  ghost predicate NeverReports(s: State) {
    forall es :: Possible(s, es) && NoNewCallback(es) ==> Run(s, es).reported == []
  }

  lemma SilentNeverReports(s: State)
    requires Silent(s)
    ensures NeverReports(s)
  {
    forall es | Possible(s, es) && NoNewCallback(es)
      ensures Run(s, es).reported == []
    {
      SilentRun(s, es);
    }
  }

  // ----- set_muted -----

  ghost predicate NeverUnmutes(es: seq<Event>) {
    Caller(SetMuted(false)) !in es
  }

  /** Whether the pacing task is past the mute test and has not sent. */
  function Loaded(p: PacerTask): nat {
    if p.pc.PSend? then 1 else 0
  }

  lemma SentOfAppend(log: seq<Frame>, f: Frame)
    ensures |SentOf(log + [f])| == |SentOf(log)| + if f.muted then 0 else 1
  {
    assert (log + [f])[..|log|] == log;
  }

  lemma MutedPacer(s: State)
    requires s.flags.muted && PacerEnabled(s)
    ensures var t := PacerStep(s);
            t.flags == s.flags && |SentOf(t.hist.log)| + Loaded(t.pacer) <= |SentOf(s.hist.log)| + Loaded(s.pacer)
  {
    if s.pacer.pc.PMuted? || s.pacer.pc.PSend? {
      var f := Frame(s.pacer.held[0].value, s.pacer.deadline, s.now, s.pacer.restarted, s.pacer.pc.PMuted?);
      assert PacerStep(s).hist.log == s.hist.log + [f];
      SentOfAppend(s.hist.log, f);
    } else {
      assert PacerStep(s).hist.log == s.hist.log;
    }
  }

  lemma {:induction false} MutedStep(s: State, e: Event)
    requires s.flags.muted && Enabled(s, e) && e != Caller(SetMuted(false))
    ensures var t := Apply(s, e);
            t.flags.muted && |SentOf(t.hist.log)| + Loaded(t.pacer) <= |SentOf(s.hist.log)| + Loaded(s.pacer)
  {
    match e
    case Pacer => MutedPacer(s);
    case _ => assert Apply(s, e).hist.log == s.hist.log;
  }

  /** Once the sound is off, until it is on again, at most the frame already past the test is sent;
      none when there is no such frame. */
  lemma {:induction false} MutedRun(s: State, es: seq<Event>)
    requires s.flags.muted && Possible(s, es) && NeverUnmutes(es)
    ensures |SentOf(Run(s, es).hist.log)| <= |SentOf(s.hist.log)| + Loaded(s.pacer)
    decreases |es|
  {
    if es != [] {
      MutedStep(s, es[0]);
      MutedRun(Apply(s, es[0]), es[1..]);
    }
  }

  ghost predicate SendsLoadedAtMost(s: State) {
    forall es :: Possible(s, es) && NeverUnmutes(es) ==>
      |SentOf(Run(s, es).hist.log)| <= |SentOf(s.hist.log)| + Loaded(s.pacer)
  }

  lemma MutedSendsLoaded(s: State)
    requires s.flags.muted
    ensures SendsLoadedAtMost(s)
  {
    forall es | Possible(s, es) && NeverUnmutes(es)
      ensures |SentOf(Run(s, es).hist.log)| <= |SentOf(s.hist.log)| + Loaded(s.pacer)
    {
      MutedRun(s, es);
    }
  }

  // ----- on_end -----

  /** The callback is registered and not called; or taken and not called; or called, once, and the
      task is done. */
  ghost predicate Promised(s: State, callback: nat) {
    match s.pacer.pc
    case PReport(taken) => taken == callback && s.reported == []
    case PDone => s.reported == [Report(callback, EndError(s.pacer.reason))]
    case _ => s.onEnd == Some(callback) && s.reported == []
  }

  ghost predicate CallbackKept(es: seq<Event>) {
    NoNewCallback(es) && Caller(StopClearsCallback) !in es
  }

  lemma PromisedStep(s: State, e: Event, callback: nat)
    requires Promised(s, callback) && Enabled(s, e)
    requires !(e.Caller? && e.call.OnEnd?) && e != Caller(StopClearsCallback)
    ensures Promised(Apply(s, e), callback)
  {
  }

  /** A callback registered before the end of the loop is called exactly once, when the task is
      done, unless it is replaced or the streamer stopped. */
  lemma {:induction false} PromisedRun(s: State, es: seq<Event>, callback: nat)
    requires Promised(s, callback) && Possible(s, es) && CallbackKept(es)
    ensures Promised(Run(s, es), callback)
    decreases |es|
  {
    if es != [] {
      PromisedStep(s, es[0], callback);
      assert !(es[0].Caller? && es[0].call.OnEnd?);
      PromisedRun(Apply(s, es[0]), es[1..], callback);
    }
  }

  ghost predicate KeepsPromise(s: State, callback: nat) {
    forall es :: Possible(s, es) && CallbackKept(es) ==> Promised(Run(s, es), callback)
  }

  lemma PromiseKept(s: State, callback: nat)
    requires Promised(s, callback)
    ensures KeepsPromise(s, callback)
  {
    forall es | Possible(s, es) && CallbackKept(es)
      ensures Promised(Run(s, es), callback)
    {
      PromisedRun(s, es, callback);
    }
  }

  // ----- resume -----

  /** The pacing task is before its first frame, or has waited for a resume and not gone on to a
      frame: it will set a new deadline. */
  predicate Waiting(p: PacerTask) {
    && p.first
    && (p.pc.PFirst? || p.pc.PLoop? || p.pc.PPaused? || p.pc.PPausedRunning? || p.pc.PCheck?
        || p.pc.PTake? || p.pc.PBarrier?)
  }

  /** Frame n, if it was handled, had a new deadline, not before t. */
  ghost predicate StartsAfresh(log: seq<Frame>, n: nat, t: nat) {
    n < |log| ==> log[n].restarted && t <= log[n].slot
  }

  /** Frame n has been handled so, or will be, or never will be. */
  ghost predicate WillStartAfresh(s: State, n: nat, t: nat) {
    && t <= s.now && n <= |s.hist.log| && StartsAfresh(s.hist.log, n, t)
    && (|s.hist.log| == n ==>
          Waiting(s.pacer) || !InLoop(s.pacer.pc)
          || ((s.pacer.pc.PMuted? || s.pacer.pc.PSend?) && s.pacer.restarted && t <= s.pacer.deadline))
  }

  lemma AfreshPacer(s: State, n: nat, t: nat)
    requires WillStartAfresh(s, n, t) && PacerEnabled(s)
    ensures WillStartAfresh(PacerStep(s), n, t)
  {
  }

  lemma {:induction false} AfreshStep(s: State, e: Event, n: nat, t: nat)
    requires WillStartAfresh(s, n, t) && Enabled(s, e)
    ensures WillStartAfresh(Apply(s, e), n, t)
  {
    match e
    case Pacer => AfreshPacer(s, n, t);
    case _ =>
  }

  /** After a wait the next frame gets a deadline of its own, no earlier than any time the wait was
      seen going on: the time paused is not made up for. */
  lemma {:induction false} AfreshRun(s: State, es: seq<Event>, n: nat, t: nat)
    requires WillStartAfresh(s, n, t) && Possible(s, es)
    ensures WillStartAfresh(Run(s, es), n, t)
    decreases |es|
  {
    if es != [] {
      AfreshStep(s, es[0], n, t);
      AfreshRun(Apply(s, es[0]), es[1..], n, t);
    }
  }

  ghost predicate NextFrameAfresh(s: State) {
    forall es :: Possible(s, es) ==> StartsAfresh(Run(s, es).hist.log, |s.hist.log|, s.now)
  }

  lemma WaitingStartsAfresh(s: State)
    requires Waiting(s.pacer)
    ensures NextFrameAfresh(s)
  {
    forall es | Possible(s, es)
      ensures StartsAfresh(Run(s, es).hist.log, |s.hist.log|, s.now)
    {
      AfreshRun(s, es, |s.hist.log|, s.now);
    }
  }

  /** The first frame of a run has a deadline of its own, not before the start. */
  lemma FirstFrameAfresh(source: seq<Item>, now: nat, es: seq<Event>)
    requires Possible(Init(source, now), es)
    ensures StartsAfresh(Run(Init(source, now), es).hist.log, 0, now)
  {
    WaitingStartsAfresh(Init(source, now));
  }

  /** So has the frame after any pause that the pacing task finds and waits out, however short. */
  lemma PauseStartsAfresh(s: State)
    requires s.pacer.pc.PPausedRunning? && s.flags.running
    ensures Enabled(s, Pacer) && NextFrameAfresh(Apply(s, Pacer)) && Apply(s, Pacer).now == s.now
  {
    WaitingStartsAfresh(Apply(s, Pacer));
  }

  // ----- done -----

  /** The done flag is set once the task is past the end of its loop, and never before. */
  ghost predicate DoneFlagRight(s: State) {
    s.doneFlag <==> s.pacer.pc.PTakeCallback? || s.pacer.pc.PReport? || s.pacer.pc.PDone?
  }

  lemma DoneFlagPacer(s: State)
    requires DoneFlagRight(s) && PacerEnabled(s)
    ensures DoneFlagRight(PacerStep(s))
  {
    if Handles(s) {
      assert PacerStep(s) == HandleStep(s);
    } else if Walks(s.pacer.pc) {
      assert PacerStep(s).doneFlag == s.doneFlag;
    }
  }

  lemma {:induction false} DoneFlagStep(s: State, e: Event)
    requires DoneFlagRight(s) && Enabled(s, e)
    ensures DoneFlagRight(Apply(s, e))
  {
    match e
    case Pacer => DoneFlagPacer(s);
    case _ =>
  }

  lemma {:induction false} DoneFlagRun(s: State, es: seq<Event>)
    requires DoneFlagRight(s) && Possible(s, es)
    ensures DoneFlagRight(Run(s, es))
    decreases |es|
  {
    if es != [] {
      DoneFlagStep(s, es[0]);
      DoneFlagRun(Apply(s, es[0]), es[1..]);
    }
  }

  lemma DoneMeansEnded(source: seq<Item>, now: nat, es: seq<Event>)
    requires Possible(Init(source, now), es)
    ensures DoneFlagRight(Run(Init(source, now), es))
  {
    DoneFlagRun(Init(source, now), es);
  }

  // ----- start -----

  lemma {:induction false} EndedRun(s: State, es: seq<Event>)
    requires !InLoop(s.pacer.pc) && Possible(s, es)
    ensures Run(s, es).hist == s.hist && !InLoop(Run(s, es).pacer.pc)
    decreases |es|
  {
    if es != [] {
      EndedStep(s, es[0]);
      EndedRun(Apply(s, es[0]), es[1..]);
    }
  }

  lemma EndedStep(s: State, e: Event)
    requires !InLoop(s.pacer.pc) && Enabled(s, e)
    ensures Apply(s, e).hist == s.hist && !InLoop(Apply(s, e).pacer.pc)
  {
  }

  /** No frame is handled ever again. */
  ghost predicate Over(s: State) {
    forall es :: Possible(s, es) ==> Run(s, es).hist.log == s.hist.log
  }

  /** A pacing loop that has ended cannot be started again. */
  lemma EndedForGood(s: State)
    requires !InLoop(s.pacer.pc)
    ensures Over(s)
  {
    forall es | Possible(s, es)
      ensures Run(s, es).hist.log == s.hist.log
    {
      EndedRun(s, es);
    }
  }
}
