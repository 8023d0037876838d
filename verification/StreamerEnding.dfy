/** How a streamer goes on and how it comes to rest: its tasks never block each other for good; running and
    not paused they read and play; stopped they end within a fixed number of steps; and the callback is
    told why. */
module StreamerEnding {
  import opened Media
  import opened Streamer
  import opened StreamerSafety
  import opened StreamerRuns

  // ----- What the callback is told -----

  ghost predicate ReasonRight(p: PacerTask) {
    p.reason.None? <==> InLoop(p.pc)
  }

  lemma {:induction false} ReasonPacer(s: State)
    requires ReasonRight(s.pacer) && PacerEnabled(s)
    ensures ReasonRight(PacerStep(s).pacer)
    ensures !InLoop(s.pacer.pc) ==> PacerStep(s).pacer.reason == s.pacer.reason
    ensures PacerStep(s).pacer.reason.Some? && PacerStep(s).pacer.reason.value.SendFailed? ==> PacerStep(s).pacer.reason == s.pacer.reason
  {
    if Handles(s) {
      assert PacerStep(s) == HandleStep(s);
    }
  }

  lemma {:induction false} ReasonStep(s: State, e: Event, x: Error)
    requires ReasonRight(s.pacer) && Enabled(s, e)
    ensures ReasonRight(Apply(s, e).pacer)
    ensures Apply(s, e).pacer.reason == Some(SendFailed(x)) <==> s.pacer.reason == Some(SendFailed(x)) || e == Sent(Some(x))
  {
    match e
    case Pacer => ReasonPacer(s);
    case _ =>
  }

  lemma {:induction false} FailureTold(s: State, es: seq<Event>, x: Error)
    requires ReasonRight(s.pacer) && Possible(s, es)
    ensures Run(s, es).pacer.reason == Some(SendFailed(x)) <==> s.pacer.reason == Some(SendFailed(x)) || Sent(Some(x)) in es
    decreases |es|
  {
    if es != [] {
      ReasonStep(s, es[0], x);
      FailureTold(Apply(s, es[0]), es[1..], x);
    }
  }

  /** The callback is told of a failed send exactly when one failed, with its error; else of an error of the
      source only after every sample before it was handled; and of no error only if the streamer was
      stopped: the end of the input is an error of the source. */
  lemma ReportTells(source: seq<Item>, now: nat, es: seq<Event>, x: Error)
    requires Possible(Init(source, now), es) && Run(Init(source, now), es).reported != []
    ensures var s := Run(Init(source, now), es);
            var error := s.reported[0].error;
            && (Sent(Some(x)) in es ==> error == Some(x))
            && (error == Some(x) && Sent(Some(x)) !in es ==>
                  s.reader.read != [] && s.reader.read[|s.reader.read| - 1] == Err(x) && Frames(s.hist.log) == Values(s.reader.read))
            && (error == None ==> s.flags.everStopped)
  {
    var s := Run(Init(source, now), es);
    EveryRunIsSafe(source, now, es);
    FailureTold(Init(source, now), es, x);
    LoopEnds(s);
  }

  /** From the moment it is taken the streamer holds no callback, unless a new one is registered. */
  lemma {:induction false} Released(s: State, es: seq<Event>)
    requires Possible(s, es) && NoNewCallback(es) && es != [] && s.pacer.pc.PTakeCallback? && es[0] == Pacer
    ensures Run(s, es).onEnd == None
  {
    StaysReleased(Apply(s, es[0]), es[1..]);
  }

  lemma {:induction false} StaysReleased(s: State, es: seq<Event>)
    requires Possible(s, es) && NoNewCallback(es) && s.onEnd == None
    ensures Run(s, es).onEnd == None
    decreases |es|
  {
    if es != [] {
      ReleasedStep(s, es[0]);
      StaysReleased(Apply(s, es[0]), es[1..]);
    }
  }

  lemma ReleasedStep(s: State, e: Event)
    requires s.onEnd == None && Enabled(s, e) && !(e.Caller? && e.call.OnEnd?)
    ensures Apply(s, e).onEnd == None
  {
  }

  // ----- No deadlock -----

  predicate IsReader(e: Event) {
    e.Reader? || e.ReadStalls?
  }

  predicate IsPacer(e: Event) {
    e.Pacer? || e.Sent? || e.SleepEnds? || e.Receive?
  }

  ghost predicate Moves(s: State, e: Event) {
    (IsReader(e) || IsPacer(e)) && Enabled(s, e)
  }

  /** A pacing task that is not done moves, or sleeps, or waits for the reader with an empty channel. */
  lemma PacerMoves(s: State) returns (e: Event)
    requires Hand(s.pacer) && !s.pacer.pc.PDone?
    requires (s.pacer.pc.PFirst? || s.pacer.pc == PJoin(true, false)) ==> s.chan != [] || s.reader.pc.RDone?
    ensures IsPacer(e)
    ensures Enabled(s.(now := if s.now < s.pacer.deadline then s.pacer.deadline else s.now), e)
  {
    match s.pacer.pc
    case PSending => e := Sent(None);
    case PJoin(slept, received) => e := if !slept then SleepEnds else if !received then Receive else Pacer;
    case _ => e := Pacer;
  }

  /** Whatever has happened: until both tasks are done one of them can move, at once or when the frame in
      hand has played out. */
  lemma NeverStuck(source: seq<Item>, now: nat, es: seq<Event>)
    requires Possible(Init(source, now), es)
    ensures var s := Run(Init(source, now), es);
            (s.reader.pc.RDone? && s.pacer.pc.PDone?) || exists d: nat, e :: Moves(Apply(s, Tick(d)), e)
  {
    var s := Run(Init(source, now), es);
    EveryRunIsSafe(source, now, es);
    if !s.reader.pc.RDone? && !(s.reader.pc.RSend? && !s.pacer.pc.PDone? && |s.chan| >= 256) {
      assert Moves(Apply(s, Tick(0)), if s.reader.pc.RRead? then ReadStalls else Reader);
    } else if !s.pacer.pc.PDone? {
      var e := PacerMoves(s);
      assert Moves(Apply(s, Tick(if s.now < s.pacer.deadline then s.pacer.deadline - s.now else 0)), e);
    }
  }

  // ----- Stopped, it ends -----

  /** How many steps a stopped reader has left at most. */
  function ReaderLeft(pc: ReaderPc): nat {
    match pc
    case RDone(_) => 0
    case RLoop => 1
    case RCheck => 1
    case RSend(_) => 2
    case RPausedRunning => 2
    case _ => 3
  }

  /** And a stopped pacing task: it finishes the frame in hand, sleep included. */
  function PacerLeft(pc: PacerPc): nat {
    match pc
    case PDone => 0
    case PReport(_) => 1
    case PTakeCallback => 2
    case PEnd => 3
    case PLoop => 4
    case PCheck => 4
    case PFirst => 5
    case PPausedRunning => 5
    case PPaused => 6
    case PJoin(slept, received) => 5 + (if slept then 0 else 1) + (if received then 0 else 1)
    case PPace => 8
    case PSending => 9
    case PSend => 10
    case PMuted => 11
    case PBarrier => 12
    case PTake => 13
  }

  function ReaderSteps(es: seq<Event>): nat {
    if es == [] then 0 else (if IsReader(es[0]) then 1 else 0) + ReaderSteps(es[1..])
  }

  function PacerSteps(es: seq<Event>): nat {
    if es == [] then 0 else (if IsPacer(es[0]) then 1 else 0) + PacerSteps(es[1..])
  }

  lemma StoppedReader(s: State)
    requires !s.flags.running && ReaderEnabled(s)
    ensures var t := ReaderStep(s); t.flags == s.flags && t.pacer == s.pacer && ReaderLeft(t.reader.pc) < ReaderLeft(s.reader.pc)
  {
  }

  lemma StoppedPacer(s: State)
    requires !s.flags.running && PacerEnabled(s)
    ensures var t := PacerStep(s); t.flags == s.flags && t.reader == s.reader && PacerLeft(t.pacer.pc) < PacerLeft(s.pacer.pc)
  {
    if Handles(s) {
      assert PacerStep(s) == HandleStep(s);
    }
  }

  lemma {:induction false} StoppedStep(s: State, e: Event)
    requires !s.flags.running && Enabled(s, e) && e != Caller(Start)
    ensures var t := Apply(s, e);
            && !t.flags.running
            && ReaderLeft(t.reader.pc) + (if IsReader(e) then 1 else 0) <= ReaderLeft(s.reader.pc)
            && PacerLeft(t.pacer.pc) + (if IsPacer(e) then 1 else 0) <= PacerLeft(s.pacer.pc)
  {
    match e
    case Reader => StoppedReader(s);
    case Pacer => StoppedPacer(s);
    case _ =>
  }

  /** Once stopped, until it is started again, the reader makes at most 3 steps and the pacing task at most
      13, however the clock, the sends and the other callers go: paused or not, both come to their end. */
  lemma {:induction false} StoppedRun(s: State, es: seq<Event>)
    requires !s.flags.running && Possible(s, es) && Caller(Start) !in es
    ensures ReaderSteps(es) <= ReaderLeft(s.reader.pc) <= 3 && PacerSteps(es) <= PacerLeft(s.pacer.pc) <= 13
    decreases |es|
  {
    if es != [] {
      StoppedStep(s, es[0]);
      StoppedRun(Apply(s, es[0]), es[1..]);
    }
  }

  ghost predicate ComesToRest(s: State) {
    forall es :: Possible(s, es) && Caller(Start) !in es ==> ReaderSteps(es) <= 3 && PacerSteps(es) <= 13
  }

  lemma StoppedComesToRest(s: State)
    requires !s.flags.running
    ensures ComesToRest(s)
  {
    forall es | Possible(s, es) && Caller(Start) !in es
      ensures ReaderSteps(es) <= 3 && PacerSteps(es) <= 13
    {
      StoppedRun(s, es);
    }
  }

  // ----- Running and not paused, it goes on -----

  ghost predicate NoHold(es: seq<Event>) {
    Caller(Pause) !in es && Caller(StopClearsRunning) !in es
  }

  /** Steps at most to the next read, or to the end. */
  function ToRead(pc: ReaderPc): nat {
    match pc
    case RRead => 0
    case RDone(_) => 0
    case RCheck => 1
    case RPaused => 2
    case RSend(_) => 4
    case _ => 3
  }

  /** Steps at most to the next frame, or to the end. */
  function ToFrame(pc: PacerPc): nat {
    match pc
    case PSend => 0
    case PDone => 0
    case PMuted => 1
    case PReport(_) => 1
    case PBarrier => 2
    case PTakeCallback => 2
    case PEnd => 3
    case PTake => 4
    case PCheck => 5
    case PPaused => 6
    case PPausedRunning => 7
    case PLoop => 7
    case PFirst => 8
    case PJoin(slept, received) => 8 + (if slept then 0 else 1) + (if received then 0 else 1)
    case PPace => 11
    case PSending => 12
  }

  lemma GoingReader(s: State)
    requires s.flags.running && !s.flags.paused && ReaderEnabled(s)
    ensures var t := ReaderStep(s);
            t.flags == s.flags && t.pacer == s.pacer && t.hist == s.hist
            && ToRead(t.reader.pc) + 1 + 5 * |s.reader.read| <= ToRead(s.reader.pc) + 5 * |t.reader.read|
  {
  }

  lemma GoingPacer(s: State)
    requires s.flags.running && !s.flags.paused && PacerEnabled(s)
    ensures var t := PacerStep(s);
            t.flags == s.flags && t.reader == s.reader
            && ToFrame(t.pacer.pc) + 1 + 13 * |s.hist.log| <= ToFrame(s.pacer.pc) + 13 * |t.hist.log|
  {
    if Handles(s) {
      assert PacerStep(s) == HandleStep(s);
    } else if Walks(s.pacer.pc) {
      assert PacerStep(s).hist == s.hist;
    } else {
      assert PacerStep(s).hist.log == s.hist.log;
    }
  }

  lemma {:induction false} GoingStep(s: State, e: Event)
    requires s.flags.running && !s.flags.paused && Enabled(s, e) && e != Caller(Pause) && e != Caller(StopClearsRunning)
    ensures var t := Apply(s, e);
            && t.flags.running && !t.flags.paused
            && ToRead(t.reader.pc) + (if IsReader(e) then 1 else 0) + 5 * |s.reader.read| <= ToRead(s.reader.pc) + 5 * |t.reader.read|
            && ToFrame(t.pacer.pc) + (if IsPacer(e) then 1 else 0) + 13 * |s.hist.log| <= ToFrame(s.pacer.pc) + 13 * |t.hist.log|
  {
    match e
    case Reader => GoingReader(s);
    case Pacer => GoingPacer(s);
    case _ => assert Apply(s, e).hist.log == s.hist.log;
  }

  /** While it runs and nobody pauses or stops it, of any 5 steps of the reader one is a read, and of any 13
      of the pacing task one handles a frame, but for the last few steps of either. */
  lemma {:induction false} GoingRun(s: State, es: seq<Event>)
    requires s.flags.running && !s.flags.paused && Possible(s, es) && NoHold(es)
    ensures ReaderSteps(es) + 5 * |s.reader.read| <= ToRead(s.reader.pc) + 5 * |Run(s, es).reader.read|
    ensures PacerSteps(es) + 13 * |s.hist.log| <= ToFrame(s.pacer.pc) + 13 * |Run(s, es).hist.log|
    decreases |es|
  {
    if es != [] {
      GoingStep(s, es[0]);
      GoingRun(Apply(s, es[0]), es[1..]);
    }
  }

  ghost predicate GoesOn(s: State) {
    forall es :: Possible(s, es) && NoHold(es) ==>
      && ReaderSteps(es) <= 4 + 5 * (|Run(s, es).reader.read| - |s.reader.read|)
      && PacerSteps(es) <= 12 + 13 * (|Run(s, es).hist.log| - |s.hist.log|)
  }

  lemma ResumedGoesOn(s: State)
    requires s.flags.running && !s.flags.paused
    ensures GoesOn(s)
  {
    forall es | Possible(s, es) && NoHold(es)
      ensures ReaderSteps(es) <= 4 + 5 * (|Run(s, es).reader.read| - |s.reader.read|)
      ensures PacerSteps(es) <= 12 + 13 * (|Run(s, es).hist.log| - |s.hist.log|)
    {
      GoingRun(s, es);
    }
  }
}
