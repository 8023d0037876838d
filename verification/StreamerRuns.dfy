/** Theorems over every run of the streamer, and over every timeline a run leaves behind. */
module StreamerRuns {
  import opened Media
  import opened Streamer
  import opened StreamerSafety

  lemma SafeInit(source: seq<Item>, now: nat)
    ensures Safe(Init(source, now))
  {
  }

  lemma {:induction false} SafeStep(s: State, e: Event)
    requires Safe(s) && Enabled(s, e)
    ensures Safe(Apply(s, e))
  {
    ConservedStep(s, e);
    LoggedStep(s, e);
    ClockedStep(s, e);
    EndingsStep(s, e);
    ReportedStep(s, e);
  }

  lemma {:induction false} SafeRun(s: State, es: seq<Event>)
    requires Safe(s) && Possible(s, es)
    ensures Safe(Run(s, es))
    decreases |es|
  {
    if es != [] {
      SafeStep(s, es[0]);
      SafeRun(Apply(s, es[0]), es[1..]);
    }
  }

  lemma {:induction false} RunAppend(s: State, es: seq<Event>, e: Event)
    requires Possible(s, es) && Enabled(Run(s, es), e)
    ensures Possible(s, es + [e]) && Run(s, es + [e]) == Apply(Run(s, es), e)
    decreases |es|
  {
    if es != [] {
      RunAppend(Apply(s, es[0]), es[1..], e);
      assert (es + [e])[0] == es[0] && (es + [e])[1..] == es[1..] + [e];
    } else {
      assert [] + [e] == [e] && [e][1..] == [];
    }
  }

  /** The headline: from any source, at any time, through any interleaving. */
  lemma EveryRunIsSafe(source: seq<Item>, now: nat, es: seq<Event>)
    requires Possible(Init(source, now), es)
    ensures Safe(Run(Init(source, now), es)) && |Run(Init(source, now), es).chan| <= 256
  {
    SafeInit(source, now);
    SafeRun(Init(source, now), es);
  }

  // ----- What is handled and how the loop ends -----

  lemma {:induction false} ValuesPrefix(a: seq<Item>, b: seq<Item>)
    requires a <= b
    ensures Values(a) <= Values(b)
    decreases |b|
  {
    if a != b {
      assert a <= b[..|b| - 1];
      ValuesPrefix(a, b[..|b| - 1]);
    }
  }

  /** The samples read are the source's samples up to some point. */
  lemma FaithfulValues(source: seq<Item>, read: seq<Item>)
    requires Faithful(source, read)
    ensures Values(read) <= Values(source)
  {
    if |read| <= |source| && (read == [] || read[|read| - 1] == source[|read| - 1]) {
      assert read == source[..|read|];
      ValuesPrefix(read, source);
    } else {
      var front := read[..|read| - 1];
      assert front == source[..|front|];
      ValuesPrefix(front, source);
    }
  }

  /** The samples handled are those of a prefix of what was read. */
  lemma HandledOfRead(p: PacerTask, h: History, read: seq<Item>)
    requires Logged(p, h) && Hand(p) && h.consumed + p.held <= read
    ensures Frames(h.log) <= Values(read)
  {
    if Open(p.pc) && InHand(p) {
      assert p.held == [p.held[0]];
      ValuesAppend(h.consumed, p.held[0]);
      ValuesPrefix(h.consumed + p.held, read);
    } else {
      assert h.consumed <= read && Values(h.consumed) + [] == Values(h.consumed);
      ValuesPrefix(h.consumed, read);
    }
  }

  /** Frames are handled in source order, each at most once, none skipped. */
  lemma HandledIsPrefix(s: State)
    requires Safe(s)
    ensures Frames(s.hist.log) <= Values(s.reader.source)
  {
    assert s.hist.consumed + s.pacer.held <= s.reader.read;
    HandledOfRead(s.pacer, s.hist, s.reader.read);
    FaithfulValues(s.reader.source, s.reader.read);
  }

  /** A source error ends the loop only after every sample read before it was handled; the loop
      leaves in any other way only if a send failed or someone stopped the streamer. */
  lemma LoopEnds(s: State)
    requires Safe(s) && s.pacer.reason.Some?
    ensures match s.pacer.reason.value
            case SourceEnd(e) =>
              var n := |s.reader.read| - 1;
              n >= 0 && s.reader.read[n] == Err(e) && AllOk(s.reader.read[..n]) && Frames(s.hist.log) == Values(s.reader.read)
            case SendFailed(_) => true
            case _ => s.flags.everStopped
  {
    if s.pacer.reason.value.SourceEnd? {
      var consumed, read := s.hist.consumed, s.reader.read;
      var front := read[..|read| - 1];
      assert forall i :: 0 <= i < |front| ==> front[i] == read[i];
      assert read[|consumed| - 1] == consumed[|consumed| - 1];
      assert consumed == read;
    }
  }

  ghost predicate NeverMutes(es: seq<Event>) {
    Caller(SetMuted(true)) !in es
  }

  lemma {:induction false} UnmutedRun(s: State, es: seq<Event>)
    requires Possible(s, es) && NeverMutes(es)
    requires !s.flags.muted && SentOf(s.hist.log) == Frames(s.hist.log)
    ensures SentOf(Run(s, es).hist.log) == Frames(Run(s, es).hist.log)
    decreases |es|
  {
    if es != [] {
      UnmutedStep(s, es[0]);
      UnmutedRun(Apply(s, es[0]), es[1..]);
    }
  }

  lemma UnmutedPacer(s: State)
    requires PacerEnabled(s) && !s.flags.muted && SentOf(s.hist.log) == Frames(s.hist.log)
    ensures var t := PacerStep(s); t.flags == s.flags && SentOf(t.hist.log) == Frames(t.hist.log)
  {
    var log := PacerStep(s).hist.log;
    if s.pacer.pc.PSend? {
      assert log[..|s.hist.log|] == s.hist.log;
    } else {
      assert log == s.hist.log;
    }
  }

  lemma {:induction false} UnmutedStep(s: State, e: Event)
    requires Enabled(s, e) && e != Caller(SetMuted(true))
    requires !s.flags.muted && SentOf(s.hist.log) == Frames(s.hist.log)
    ensures var t := Apply(s, e); !t.flags.muted && SentOf(t.hist.log) == Frames(t.hist.log)
  {
    match e
    case Pacer => UnmutedPacer(s);
    case _ => assert Apply(s, e).hist.log == s.hist.log;
  }

  /** What a run hands to the transport, with the sound never switched off: a prefix of the
      source's samples, in order. */
  lemma SentIsPrefix(source: seq<Item>, now: nat, es: seq<Event>)
    requires Possible(Init(source, now), es) && NeverMutes(es)
    ensures SentOf(Run(Init(source, now), es).hist.log) <= Values(source)
  {
    EveryRunIsSafe(source, now, es);
    UnmutedRun(Init(source, now), es);
    SourceFixed(Init(source, now), es);
    HandledIsPrefix(Run(Init(source, now), es));
  }

  lemma SourceStep(s: State, e: Event)
    requires Enabled(s, e)
    ensures Apply(s, e).reader.source == s.reader.source
  {
  }

  lemma {:induction false} SourceFixed(s: State, es: seq<Event>)
    requires Possible(s, es)
    ensures Run(s, es).reader.source == s.reader.source
    decreases |es|
  {
    if es != [] {
      SourceStep(s, es[0]);
      SourceFixed(Apply(s, es[0]), es[1..]);
    }
  }

  /** The positions of the frames sent. */
  function Unmuted(log: seq<Frame>): (r: seq<nat>)
    ensures |r| == |SentOf(log)|
    ensures forall j :: 0 <= j < |r| ==> r[j] < |log| && SentOf(log)[j] == log[r[j]].sample
  {
    if log == [] then []
    else Unmuted(log[..|log| - 1]) + if log[|log| - 1].muted then [] else [|log| - 1]
  }

  lemma {:induction false} UnmutedInOrder(log: seq<Frame>)
    ensures forall i, j :: 0 <= i < j < |Unmuted(log)| ==> Unmuted(log)[i] < Unmuted(log)[j]
    ensures |SentOf(log)| <= |log|
    ensures |SentOf(log)| == |log| ==> forall j :: 0 <= j < |log| ==> Unmuted(log)[j] == j
  {
    if log != [] {
      UnmutedInOrder(log[..|log| - 1]);
    }
  }

  // ----- Pause and stop -----

  ghost predicate Blocked(s: State) {
    s.flags.paused || !s.flags.running
  }

  /** Whether the pacing task is past its checks and will still handle one frame. */
  function Committed(s: State): nat {
    match s.pacer.pc
    case PCheck => if s.flags.running then 1 else 0
    case PTake => 1
    case PBarrier => 1
    case PMuted => 1
    case PSend => 1
    case _ => 0
  }

  ghost predicate NoRelease(es: seq<Event>) {
    Caller(Resume) !in es && Caller(Start) !in es
  }

  lemma BlockedPacer(s: State)
    requires Blocked(s) && PacerEnabled(s)
    ensures var t := PacerStep(s);
            && s.hist.log <= t.hist.log
            && |t.hist.log| + Committed(t) <= |s.hist.log| + Committed(s)
  {
    if Handles(s) {
      assert PacerStep(s) == HandleStep(s);
    } else if Walks(s.pacer.pc) {
      assert PacerStep(s).hist == s.hist;
    } else {
      assert PacerStep(s).hist.log == s.hist.log;
    }
  }

  lemma {:induction false} BlockedStep(s: State, e: Event)
    requires Blocked(s) && Enabled(s, e) && e != Caller(Resume) && e != Caller(Start)
    ensures var t := Apply(s, e);
            && Blocked(t) && s.hist.log <= t.hist.log
            && |t.hist.log| + Committed(t) <= |s.hist.log| + Committed(s)
  {
    match e
    case Pacer => BlockedPacer(s);
    case Reader => assert Apply(s, e).flags == s.flags && Apply(s, e).pacer == s.pacer;
    case _ =>
  }

  lemma {:induction false} BlockedRun(s: State, es: seq<Event>)
    requires Blocked(s) && Possible(s, es) && NoRelease(es)
    ensures s.hist.log <= Run(s, es).hist.log
    ensures |Run(s, es).hist.log| + Committed(Run(s, es)) <= |s.hist.log| + Committed(s)
    decreases |es|
  {
    if es != [] {
      BlockedStep(s, es[0]);
      BlockedRun(Apply(s, es[0]), es[1..]);
    }
  }

  lemma {:induction false} SentOfGrows(a: seq<Frame>, b: seq<Frame>)
    requires a <= b
    ensures |SentOf(a)| <= |SentOf(b)| <= |SentOf(a)| + |b| - |a|
    decreases |b|
  {
    if a != b {
      assert a <= b[..|b| - 1];
      SentOfGrows(a, b[..|b| - 1]);
    }
  }

  /** From a pause until the matching resume, and from a stop on, at most one more frame is
      sent, whatever everyone else does. */
  lemma AtMostOneAfterBlocking(s: State, es: seq<Event>)
    requires Blocked(s) && Possible(s, es) && NoRelease(es)
    ensures |SentOf(Run(s, es).hist.log)| <= |SentOf(s.hist.log)| + 1
  {
    BlockedRun(s, es);
    SentOfGrows(s.hist.log, Run(s, es).hist.log);
  }

  // ----- The end callback -----

  ghost predicate Silent(s: State) {
    s.onEnd == None && !s.pacer.pc.PReport? && s.reported == []
  }

  ghost predicate NoNewCallback(es: seq<Event>) {
    forall i :: 0 <= i < |es| ==> !(es[i].Caller? && es[i].call.OnEnd?)
  }

  lemma SilentStep(s: State, e: Event)
    requires Silent(s) && Enabled(s, e) && !(e.Caller? && e.call.OnEnd?)
    ensures Silent(Apply(s, e))
  {
  }

  lemma {:induction false} SilentRun(s: State, es: seq<Event>)
    requires Silent(s) && Possible(s, es) && NoNewCallback(es)
    ensures Run(s, es).reported == []
    decreases |es|
  {
    if es != [] {
      SilentStep(s, es[0]);
      assert !(es[0].Caller? && es[0].call.OnEnd?);
      SilentRun(Apply(s, es[0]), es[1..]);
    }
  }

  /** A streamer stopped before its callback is taken never reports; taken once, at most one
      report is made. */
  lemma StoppedBeforeTaken(s: State, es: seq<Event>)
    requires Safe(s) && !s.pacer.pc.PReport? && !s.pacer.pc.PDone?
    requires Possible(Apply(s, Caller(StopClearsCallback)), es) && NoNewCallback(es)
    ensures Run(Apply(s, Caller(StopClearsCallback)), es).reported == []
  {
    SilentRun(Apply(s, Caller(StopClearsCallback)), es);
  }

  // ----- Pacing -----

  /** The total duration of frames i .. j-1. */
  function Span(log: seq<Frame>, i: nat, j: nat): nat
    requires i <= j <= |log|
    decreases j
  {
    if i == j then 0 else Span(log, i, j - 1) + log[j - 1].sample.duration
  }

  lemma {:induction false} SlotsGrow(log: seq<Frame>, paces: seq<Pace>, i: nat, j: nat)
    requires Timeline(log, paces) && i <= j < |log|
    ensures log[i].slot + Span(log, i, j) <= log[j].slot
    decreases j
  {
    if i < j {
      SlotsGrow(log, paces, i, j - 1);
      assert NextOk(log[j - 1], paces[j - 1], log[j]);
    }
  }

  /** Pacing never bursts past its slack: between frame i and frame j+1 at least the play time
      of the frames in between goes by, less 100 ms; across pauses, barriers and resyncs. */
  lemma NoBurst(log: seq<Frame>, paces: seq<Pace>, i: nat, j: nat)
    requires Timeline(log, paces) && i <= j && j + 1 < |log|
    ensures Span(log, i + 1, j + 1) <= log[j + 1].at - log[i].at + SLACK
  {
    assert NextOk(log[i], paces[i], log[i + 1]);
    SlotsGrow(log, paces, i + 1, j + 1);
  }

  /** So it is in every run. */
  lemma RunNeverBursts(source: seq<Item>, now: nat, es: seq<Event>, i: nat, j: nat)
    requires Possible(Init(source, now), es)
    requires i <= j && j + 1 < |Run(Init(source, now), es).hist.log|
    ensures var log := Run(Init(source, now), es).hist.log;
            Span(log, i + 1, j + 1) <= log[j + 1].at - log[i].at + 100_000_000
  {
    EveryRunIsSafe(source, now, es);
    var h := Run(Init(source, now), es).hist;
    NoBurst(h.log, h.paces, i, j);
  }

  /** Handling frame f took no longer than it plays, and g came at most e late, its deadline not set
      anew. */
  ghost predicate FollowsOnTime(f: Frame, p: Pace, g: Frame, e: nat) {
    && !g.restarted
    && p.at <= f.at + f.sample.duration
    && (g.at <= Due(f) + e || g.at <= f.at + f.sample.duration)
  }

  /** A log on schedule, from its first frame on. */
  ghost predicate OnSchedule(log: seq<Frame>, paces: seq<Pace>, e: nat) {
    && log != [] && |log| <= |paces| + 1
    && log[0].at <= log[0].slot + e
    && forall k, l :: 0 <= k && l == k + 1 < |log| ==> FollowsOnTime(log[k], paces[k], log[l], e)
  }

  /** Lateness does not accumulate: with e <= 100 ms frame k goes out within
      [base + play time before it, that + e], for every k, and no resync occurs. */
  lemma {:induction false} LatenessBounded(log: seq<Frame>, paces: seq<Pace>, e: nat, k: nat)
    requires Timeline(log, paces) && OnSchedule(log, paces, e) && e <= SLACK && k < |log|
    ensures log[k].slot == log[0].slot + Span(log, 0, k)
    ensures log[k].slot <= log[k].at <= log[k].slot + e
    ensures k + 1 < |log| ==> !paces[k].resynced
    decreases k
  {
    if k > 0 {
      LatenessBounded(log, paces, e, k - 1);
      assert NextOk(log[k - 1], paces[k - 1], log[k]) && FollowsOnTime(log[k - 1], paces[k - 1], log[k], e);
    }
    if k + 1 < |log| {
      assert NextOk(log[k], paces[k], log[k + 1]) && FollowsOnTime(log[k], paces[k], log[k + 1], e);
      assert PaceOk(log[k], paces[k]);
    }
  }
}
