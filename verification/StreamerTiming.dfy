/** The streamer's schedule in terms of what happens in a run: when frames go out on time, and a run
    in which the slack of the pacing loop is used up. */
module StreamerTiming {
  import opened Media
  import opened Streamer
  import opened StreamerSafety
  import opened StreamerRuns

  // ----- Runs that keep their schedule -----

  function LastOf(log: seq<Frame>): Frame
    requires log != []
  {
    log[|log| - 1]
  }

  /** Conditions on an event where it happens. Nobody pauses. Time passes freely before the first
      frame has its deadline; while a frame is being sent, until it has played; and between frames
      (the sleep, the next sample, the tests of the loop), until `slip` past the deadline. */
  ghost predicate Prompt(s: State, e: Event, slip: nat) {
    match e
    case Caller(call) => call != Pause
    case Tick(d) =>
      s.pacer.first || !InLoop(s.pacer.pc)
      || (if Open(s.pacer.pc) then
            s.hist.log != [] && s.now + d <= LastOf(s.hist.log).at + LastOf(s.hist.log).sample.duration
          else s.now + d <= s.pacer.deadline + slip)
    case _ => true
  }

  ghost predicate PromptRun(s: State, es: seq<Event>, slip: nat)
    requires Possible(s, es)
    decreases |es|
  {
    es == [] || (Prompt(s, es[0], slip) && PromptRun(Apply(s, es[0]), es[1..], slip))
  }

  /** The log so far: on schedule, and the last frame no exception. */
  ghost predicate LogOnTime(log: seq<Frame>, paces: seq<Pace>, slip: nat) {
    log != [] ==>
      && OnSchedule(log, paces, slip)
      && LastOf(log).at <= LastOf(log).slot + slip
      && (|paces| == |log| ==> paces[|log| - 1].at <= LastOf(log).at + LastOf(log).sample.duration)
  }

  /** The clock and the pacing task: no wait for a resume, no second barrier, not behind. */
  ghost predicate TaskOnTime(now: nat, p: PacerTask, log: seq<Frame>, slip: nat) {
    && !p.pc.PPausedRunning?
    && (log != [] ==> !p.first && !p.pc.PBarrier? && (p.pc.PMuted? || p.pc.PSend? ==> !p.restarted))
    && (InLoop(p.pc) && !p.first ==>
          if Open(p.pc) then log != [] && now <= LastOf(log).at + LastOf(log).sample.duration
          else now <= p.deadline + slip)
    && (Open(p.pc) || p.pc.PMuted? || p.pc.PSend? || p.pc.PJoin? ==> !p.first)
  }

  ghost predicate OnTime(s: State, slip: nat) {
    && !s.flags.paused
    && LogOnTime(s.hist.log, s.hist.paces, slip)
    && TaskOnTime(s.now, s.pacer, s.hist.log, slip)
  }

  /** The next frame on the log. */
  lemma LogHandled(log: seq<Frame>, paces: seq<Pace>, f: Frame, slip: nat)
    requires LogOnTime(log, paces, slip) && slip <= SLACK && Timeline(log, paces) && |log| == |paces|
    requires f.at <= f.slot + slip
    requires log != [] ==> !f.restarted && f.slot == Adjusted(LastOf(log), paces[|log| - 1])
    ensures LogOnTime(log + [f], paces, slip)
  {
    var all, n := log + [f], |log|;
    if log != [] {
      assert PaceOk(log[n - 1], paces[n - 1]);
      assert FollowsOnTime(log[n - 1], paces[n - 1], f, slip);
    }
    forall k, l | 0 <= k && l == k + 1 < |all|
      ensures FollowsOnTime(all[k], paces[k], all[l], slip)
    {
      assert all[k] == log[k] && all[l] == if l < n then log[l] else f;
    }
  }

  lemma TimelyHandled(s: State, muted: bool, pc: PacerPc, slip: nat)
    requires OnTime(s, slip) && slip <= SLACK && InHand(s.pacer)
    requires Clocked(s.now, s.pacer, s.hist.log, s.hist.paces, s.nsSent)
    requires (s.pacer.pc.PMuted? || s.pacer.pc.PSend?) && Open(pc)
    ensures OnTime(Handled(s, muted, pc), slip)
  {
    var f := Frame(s.pacer.held[0].value, s.pacer.deadline, s.now, s.pacer.restarted, muted);
    LogHandled(s.hist.log, s.hist.paces, f, slip);
  }

  /** After a frame handled in time the deadline is not behind by more than the slack. */
  lemma LogPaced(log: seq<Frame>, paces: seq<Pace>, p: Pace, slip: nat)
    requires LogOnTime(log, paces, slip) && |log| == |paces| + 1
    requires p.at <= LastOf(log).at + LastOf(log).sample.duration
    ensures LogOnTime(log, paces + [p], slip)
  {
    assert forall k :: 0 <= k < |paces| ==> (paces + [p])[k] == paces[k];
  }

  lemma TimelyPaced(s: State, slip: nat)
    requires OnTime(s, slip) && slip <= SLACK && InHand(s.pacer) && s.pacer.pc.PPace?
    requires Clocked(s.now, s.pacer, s.hist.log, s.hist.paces, s.nsSent)
    ensures OnTime(Paced(s), slip)
  {
    var last := LastOf(s.hist.log);
    assert last.slot == s.pacer.deadline && last.sample == s.pacer.held[0].value;
    LogPaced(s.hist.log, s.hist.paces, Pace(s.now, false), slip);
  }

  lemma TimelyHandle(s: State, slip: nat)
    requires OnTime(s, slip) && slip <= SLACK && Handles(s)
    requires Clocked(s.now, s.pacer, s.hist.log, s.hist.paces, s.nsSent)
    ensures OnTime(HandleStep(s), slip)
  {
    match s.pacer.pc
    case PMuted => TimelyHandled(s, true, PPace, slip);
    case PSend => TimelyHandled(s, false, PSending, slip);
    case PPace => TimelyPaced(s, slip);
  }

  lemma TimelyWalk(s: State, slip: nat)
    requires OnTime(s, slip) && Walks(s.pacer.pc)
    ensures OnTime(s.(pacer := PacerWalk(s.pacer, s.flags, s.now)), slip)
  {
  }

  lemma TimelyTake(s: State, slip: nat)
    requires OnTime(s, slip) && s.pacer.pc.PTake?
    ensures OnTime(Take(s), slip)
  {
  }

  lemma TimelyReceived(s: State, pc: PacerPc, slip: nat)
    requires OnTime(s, slip)
    requires (s.pacer.pc.PFirst? && pc.PLoop?) || (s.pacer.pc.PJoin? && pc == s.pacer.pc.(received := true))
    ensures OnTime(Received(s, pc), slip)
  {
  }

  lemma TimelyEnd(s: State, slip: nat)
    requires OnTime(s, slip) && !InLoop(s.pacer.pc)
    ensures OnTime(EndStep(s), slip)
  {
  }

  lemma {:induction false} TimelyPacer(s: State, slip: nat)
    requires OnTime(s, slip) && slip <= SLACK && PacerEnabled(s) && Hand(s.pacer)
    requires Clocked(s.now, s.pacer, s.hist.log, s.hist.paces, s.nsSent)
    ensures OnTime(PacerStep(s), slip)
  {
    if Handles(s) {
      TimelyHandle(s, slip);
    } else if Walks(s.pacer.pc) {
      TimelyWalk(s, slip);
    } else if s.pacer.pc.PTake? {
      TimelyTake(s, slip);
    } else if s.pacer.pc.PFirst? {
      TimelyReceived(s, PLoop, slip);
    } else {
      TimelyEnd(s, slip);
    }
  }

  lemma TimelyTick(s: State, d: nat, slip: nat)
    requires OnTime(s, slip) && Prompt(s, Tick(d), slip)
    ensures OnTime(s.(now := s.now + d), slip)
  {
  }

  lemma TimelySent(s: State, outcome: Option<Error>, slip: nat)
    requires OnTime(s, slip) && s.pacer.pc.PSending?
    ensures OnTime(Apply(s, Sent(outcome)), slip)
  {
  }

  /** Steps that leave clock, log and deadline alone. */
  lemma TimelyRest(s: State, t: State, slip: nat)
    requires OnTime(s, slip) && !t.flags.paused && t.now == s.now && t.hist == s.hist
    requires t.pacer == s.pacer || (s.pacer.pc.PJoin? && t.pacer == s.pacer.(pc := t.pacer.pc) && t.pacer.pc.PJoin?)
    ensures OnTime(t, slip)
  {
  }

  lemma {:induction false} TimelyStep(s: State, e: Event, slip: nat)
    requires Hand(s.pacer) && Clocked(s.now, s.pacer, s.hist.log, s.hist.paces, s.nsSent)
    requires OnTime(s, slip) && slip <= SLACK && Enabled(s, e) && Prompt(s, e, slip)
    ensures OnTime(Apply(s, e), slip)
  {
    match e
    case Pacer => TimelyPacer(s, slip);
    case Tick(d) => TimelyTick(s, d, slip);
    case Sent(outcome) => TimelySent(s, outcome, slip);
    case Receive => TimelyReceived(s, s.pacer.pc.(received := true), slip);
    case SleepEnds => TimelyRest(s, Apply(s, e), slip);
    case Caller(call) => TimelyRest(s, Called(s, call), slip);
    case Reader => TimelyRest(s, ReaderStep(s), slip);
    case ReadStalls => TimelyRest(s, Apply(s, e), slip);
  }

  lemma {:induction false} TimelyRun(s: State, es: seq<Event>, slip: nat)
    requires Safe(s) && OnTime(s, slip) && slip <= SLACK && Possible(s, es) && PromptRun(s, es, slip)
    ensures Safe(Run(s, es)) && OnTime(Run(s, es), slip)
    decreases |es|
  {
    if es != [] {
      SafeStep(s, es[0]);
      TimelyStep(s, es[0], slip);
      TimelyRun(Apply(s, es[0]), es[1..], slip);
    }
  }

  /** Every prompt run keeps its schedule, however long: with slips of at most 100 ms frame k goes
      out within [first deadline + play time before it, that + slip], and the deadline is never
      moved to the present. */
  lemma RunKeepsSchedule(source: seq<Item>, now: nat, es: seq<Event>, slip: nat, k: nat)
    requires slip <= SLACK && Possible(Init(source, now), es) && PromptRun(Init(source, now), es, slip)
    requires k < |Run(Init(source, now), es).hist.log|
    ensures var h := Run(Init(source, now), es).hist;
            var due := h.log[0].slot + Span(h.log, 0, k);
            && due <= h.log[k].at <= due + slip
            && (k + 1 < |h.log| ==> k < |h.paces| && !h.paces[k].resynced)
  {
    SafeInit(source, now);
    TimelyRun(Init(source, now), es, slip);
    var h := Run(Init(source, now), es).hist;
    LatenessBounded(h.log, h.paces, slip, k);
  }

  // ----- A run that uses up the slack -----

  ghost predicate Reaches(s: State, t: State) {
    exists es :: Possible(s, es) && Run(s, es) == t
  }

  lemma ReachOn(s: State, t: State, e: Event)
    requires Reaches(s, t) && Enabled(t, e)
    ensures Reaches(s, Apply(t, e))
  {
    var es :| Possible(s, es) && Run(s, es) == t;
    RunAppend(s, es, e);
  }

  lemma ReachSelf(s: State)
    ensures Reaches(s, s)
  {
    assert Possible(s, []) && Run(s, []) == s;
  }

  /** The reader goes round its loop once. */
  lemma ReadsOne(s0: State, s: State) returns (t: State)
    requires Reaches(s0, s) && s.reader.pc.RLoop? && s.flags.running && !s.flags.paused && !s.pacer.pc.PDone?
    requires |s.reader.read| < |s.reader.source| && s.reader.source[|s.reader.read|].Ok? && |s.chan| < CAPACITY
    ensures Reaches(s0, t)
    ensures var item := s.reader.source[|s.reader.read|];
            t == s.(reader := s.reader.(read := s.reader.read + [item]), chan := s.chan + [item])
  {
    var item := s.reader.source[|s.reader.read|];
    var s1 := s.(reader := s.reader.(pc := RPaused));
    var s2 := s.(reader := s.reader.(pc := RCheck));
    var s3 := s.(reader := s.reader.(pc := RRead));
    var s4 := s.(reader := AfterRead(s.reader, item));
    t := s.(reader := s.reader.(read := s.reader.read + [item]), chan := s.chan + [item]);
    ReachOn(s0, s, Reader);
    ReachOn(s0, s1, Reader);
    ReachOn(s0, s2, Reader);
    ReachOn(s0, s3, Reader);
    ReachOn(s0, s4, Reader);
  }

  /** The first n samples read and in the channel, the pacing task not yet begun. */
  function Buffered(source: seq<Item>, now: nat, n: nat): State
    requires n <= |source|
  {
    Init(source, now).(reader := ReaderTask(RLoop, source, source[..n]), chan := source[..n])
  }

  /** The reader runs ahead as far as the channel's 256 places. */
  lemma {:induction false} ChannelFills(source: seq<Item>, now: nat, n: nat)
    requires AllOk(source) && n <= |source| && n <= 256
    ensures Reaches(Init(source, now), Buffered(source, now, n)) && |Buffered(source, now, n).chan| == n
  {
    var s0 := Init(source, now);
    if n == 0 {
      ReachSelf(s0);
      assert Buffered(source, now, 0) == s0;
    } else {
      ChannelFills(source, now, n - 1);
      var t := ReadsOne(s0, Buffered(source, now, n - 1));
      assert source[..n] == source[..n - 1] + [source[n - 1]];
      assert t == Buffered(source, now, n);
    }
  }

  function PacerAt(s: State, pc: PacerPc): State {
    s.(pacer := s.pacer.(pc := pc))
  }

  /** From the top of the loop to the take, nobody pausing or stopping. */
  lemma ComesToTake(s0: State, s: State)
    requires Reaches(s0, s) && s.pacer.pc.PLoop? && s.flags.running && !s.flags.paused
    ensures Reaches(s0, PacerAt(s, PTake))
  {
    ReachOn(s0, s, Pacer);
    ReachOn(s0, PacerAt(s, PPaused), Pacer);
    ReachOn(s0, PacerAt(s, PCheck), Pacer);
  }

  /** From the mute test, sound on, through a send that succeeds. */
  lemma SendsOne(s0: State, s: State) returns (t: State)
    requires Reaches(s0, s) && s.pacer.pc.PMuted? && !s.flags.muted && InHand(s.pacer)
    ensures Reaches(s0, t)
    ensures t == PacerAt(s, PPace).(hist := t.hist) && t.hist.consumed == s.hist.consumed && t.hist.paces == s.hist.paces
    ensures t.hist.log == s.hist.log + [Frame(s.pacer.held[0].value, s.pacer.deadline, s.now, s.pacer.restarted, false)]
  {
    var s1 := PacerAt(s, PSend);
    ReachOn(s0, s, Pacer);
    var s2 := Handled(s1, false, PSending);
    ReachOn(s0, s1, Pacer);
    t := PacerAt(s2, PPace);
    ReachOn(s0, s2, Sent(None));
  }

  /** From the pace to the take of the next sample: the deadline has passed, but not by more than the
      slack, and the next sample is there. */
  lemma TakesNext(s0: State, s: State) returns (t: State)
    requires Reaches(s0, s) && s.pacer.pc.PPace? && InHand(s.pacer) && s.chan != []
    requires var due := s.pacer.deadline + s.pacer.held[0].value.duration; due <= s.now <= due + SLACK
    requires s.flags.running && !s.flags.paused
    ensures Reaches(s0, t)
    ensures t.pacer == PacerTask(PTake, s.pacer.first, s.pacer.restarted,
                                 s.pacer.deadline + s.pacer.held[0].value.duration, [s.chan[0]], s.pacer.reason)
    ensures t.now == s.now && t.flags == s.flags && t.chan == s.chan[1..] && t.hist.log == s.hist.log
  {
    var s1 := Paced(s);
    ReachOn(s0, s, Pacer);
    var s2 := Received(s1, PJoin(true, true));
    ReachOn(s0, s1, Receive);
    var s3 := PacerAt(s2, PLoop);
    ReachOn(s0, s2, Pacer);
    ComesToTake(s0, s3);
    t := PacerAt(s3, PTake);
  }

  /** And on through the send of that sample, the first behind us. */
  lemma PlaysNext(s0: State, s: State) returns (t: State)
    requires Reaches(s0, s) && s.pacer.pc.PPace? && InHand(s.pacer) && s.chan != [] && s.chan[0].Ok?
    requires var due := s.pacer.deadline + s.pacer.held[0].value.duration; due <= s.now <= due + SLACK
    requires s.flags.running && !s.flags.paused && !s.flags.muted && !s.pacer.first
    ensures Reaches(s0, t)
    ensures t.now == s.now && t.flags == s.flags && t.chan == s.chan[1..]
    ensures t.pacer == PacerTask(PPace, false, false, s.pacer.deadline + s.pacer.held[0].value.duration,
                                 [s.chan[0]], s.pacer.reason)
    ensures t.hist.log == s.hist.log + [Frame(s.chan[0].value, t.pacer.deadline, s.now, false, false)]
  {
    var s1 := TakesNext(s0, s);
    ReachOn(s0, s1, Pacer);
    t := SendsOne(s0, Apply(s1, Pacer));
  }

  lemma ReadsThree(source: seq<Item>) returns (t: State)
    requires |source| == 3 && forall i :: 0 <= i < 3 ==> source[i].Ok?
    ensures Reaches(Init(source, 0), t) && t == Init(source, 0).(reader := t.reader, chan := source)
  {
    var s0 := Init(source, 0);
    ReachSelf(s0);
    var s1 := ReadsOne(s0, s0);
    var s2 := ReadsOne(s0, s1);
    t := ReadsOne(s0, s2);
    assert t.chan == source;
  }

  /** From the barrier to the mute test. */
  lemma PassesBarrier(s0: State, s: State) returns (t: State)
    requires Reaches(s0, s) && s.pacer.pc.PTake? && InHand(s.pacer) && s.pacer.first
    ensures Reaches(s0, t)
    ensures t == s.(pacer := s.pacer.(pc := PMuted, first := false, restarted := true, deadline := s.now))
  {
    ReachOn(s0, s, Pacer);
    var s1 := s.(pacer := s.pacer.(pc := PBarrier, restarted := false));
    ReachOn(s0, s1, Pacer);
    t := s.(pacer := s.pacer.(pc := PMuted, first := false, restarted := true, deadline := s.now));
  }

  /** Three frames in store, and the first one's barrier passed. */
  lemma Starts(source: seq<Item>) returns (t: State)
    requires |source| == 3 && forall i :: 0 <= i < 3 ==> source[i].Ok?
    ensures Reaches(Init(source, 0), t)
    ensures t.pacer == PacerTask(PMuted, false, true, 0, [source[0]], None)
    ensures t.now == 0 && t.flags == Flags(true, false, false, false) && t.chan == source[1..] && t.hist.log == []
  {
    var s0 := Init(source, 0);
    var s1 := ReadsThree(source);
    var s2 := Received(s1, PLoop);
    ReachOn(s0, s1, Pacer);
    ComesToTake(s0, s2);
    t := PassesBarrier(s0, PacerAt(s2, PTake));
  }

  /** Three frames, of which the second lasts 100 ms; after the barrier of the first 100 ms go by. */
  const SLACK_SOURCE: seq<Item> := [Ok(Sample([], 0)), Ok(Sample([], SLACK)), Ok(Sample([], 0))]

  /** The slack is needed: in this run the second frame's 100 ms of play time take no time at all. */
  lemma SlackReached()
    ensures exists es :: Possible(Init(SLACK_SOURCE, 0), es)
              && var log := Run(Init(SLACK_SOURCE, 0), es).hist.log;
                 |log| == 3 && Span(log, 1, 2) == log[2].at - log[0].at + 100_000_000
  {
    var s0 := Init(SLACK_SOURCE, 0);
    var s1 := Starts(SLACK_SOURCE);
    ReachOn(s0, s1, Tick(SLACK));
    var s2 := SendsOne(s0, s1.(now := SLACK));
    var s3 := PlaysNext(s0, s2);
    var s4 := PlaysNext(s0, s3);
    var es :| Possible(s0, es) && Run(s0, es) == s4;
    var log := s4.hist.log;
    assert Span(log, 1, 2) == Span(log, 1, 1) + log[1].sample.duration;
  }
}
