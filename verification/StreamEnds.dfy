/** How a group call reports the end of its sources (instances/group_call.rs, set_source and
    stop; media/streamer.rs, the end of the pacing task).

    set_source holds the locks of both streamer slots while it works, so other set_source calls
    and stop wait for it, but the tasks of every streamer, old and new, run on in between. Each
    step below is one atomic action; they interleave in any order. */
module StreamEnds {
  import opened Media

  datatype Kind = AudioEnd | VideoEnd

  /** A call of the end callback: which source installed it, and the kind it reports. */
  datatype Report = Report(source: nat, kind: Kind)

  /** The end of a streamer's pacing task: in the loop, past it, callback taken, over. */
  datatype Phase = Looping | Ended | Taken(report: Report) | Over

  /** A streamer of some source: its leg, its callback slot, where its task is, and whether it
      has made its report; `running` until it is stopped. */
  datatype Streamer = Streamer(source: nat, leg: Kind, onEnd: Option<Report>, phase: Phase, reported: bool, running: bool)

  /** Whether a source has audio and whether it has video. */
  datatype Legs = Legs(audio: bool, video: bool)

  /** Where set_source is. The numbers are indices of streamers. */
  datatype SetPc =
    | Idle
    | StopAudio(hasAudio: bool, hasVideo: bool)
    | StopVideo(hasAudio: bool, hasVideo: bool)
    | MakeAudio(hasVideo: bool)
    | HookAudio(id: nat, hasVideo: bool)
    | MakeVideo(hasAudio: bool, hasVideo: bool)
    | HookVideo(id: nat, hasAudio: bool)

  /** `sources` lists every source so far by its legs; `admitted` counts set_source calls that found
      the call open and have not begun. */
  datatype State = State(
    closed: bool, admitted: nat, pc: SetPc, audio: Option<nat>, video: Option<nat>,
    streamers: seq<Streamer>, sources: seq<Legs>, reports: seq<Report>)

  const INIT := State(false, 0, Idle, None, None, [], [], [])

  datatype Event =
    | Admit                                  // set_source finds the call open
    | Begin(hasAudio: bool, hasVideo: bool)  // it takes the locks
    | SetStep
    | CloseFlag | StopAudioSlot | StopVideoSlot // stop()
    | LoopEnds(id: nat) | TakeCallback(id: nat) | CallBack(id: nat)

  /** Streamer::stop on a slot's streamer: its callback is cleared, and it runs no more. */
  function Cleared(streamers: seq<Streamer>, slot: Option<nat>): seq<Streamer> {
    if slot.Some? && slot.value < |streamers| then
      streamers[slot.value := streamers[slot.value].(onEnd := None, running := false)]
    else streamers
  }

  function Hooked(streamers: seq<Streamer>, id: nat, kind: Kind): seq<Streamer> {
    if id < |streamers| then
      streamers[id := streamers[id].(onEnd := Some(Report(streamers[id].source, kind)))]
    else streamers
  }

  function Fresh(s: State, leg: Kind): Streamer
    requires s.sources != []
  {
    Streamer(|s.sources| - 1, leg, None, Looping, false, true)
  }

  function SetSourceStep(s: State): State
    requires !s.pc.Idle? && (s.pc.MakeAudio? || s.pc.MakeVideo? ==> s.sources != [])
  {
    match s.pc
    case StopAudio(a, v) => s.(streamers := Cleared(s.streamers, s.audio), audio := None, pc := StopVideo(a, v))
    case StopVideo(a, v) =>
      s.(streamers := Cleared(s.streamers, s.video), video := None, sources := s.sources + [Legs(a, v)],
         pc := if a then MakeAudio(v) else MakeVideo(false, v))
    case MakeAudio(v) => s.(streamers := s.streamers + [Fresh(s, AudioEnd)], pc := HookAudio(|s.streamers|, v))
    case HookAudio(id, v) =>
      s.(streamers := Hooked(s.streamers, id, AudioEnd), audio := Some(id), pc := MakeVideo(true, v))
    case MakeVideo(a, v) =>
      if v then s.(streamers := s.streamers + [Fresh(s, VideoEnd)], pc := HookVideo(|s.streamers|, a))
      else s.(pc := Idle)
    case HookVideo(id, a) =>
      s.(streamers := if a then s.streamers else Hooked(s.streamers, id, VideoEnd), video := Some(id), pc := Idle)
  }

  predicate Enabled(s: State, e: Event) {
    match e
    case Admit => !s.closed
    case Begin(_, _) => s.admitted > 0 && s.pc.Idle?
    case SetStep => !s.pc.Idle? && (s.pc.MakeAudio? || s.pc.MakeVideo? ==> s.sources != [])
    case CloseFlag => true
    case StopAudioSlot => s.closed && s.pc.Idle?
    case StopVideoSlot => s.closed && s.pc.Idle?
    case LoopEnds(id) => id < |s.streamers| && s.streamers[id].phase.Looping?
    case TakeCallback(id) => id < |s.streamers| && s.streamers[id].phase.Ended?
    case CallBack(id) => id < |s.streamers| && s.streamers[id].phase.Taken?
  }

  function Apply(s: State, e: Event): State
    requires Enabled(s, e)
  {
    match e
    case Admit => s.(admitted := s.admitted + 1)
    case Begin(a, v) => s.(admitted := s.admitted - 1, pc := StopAudio(a, v))
    case SetStep => SetSourceStep(s)
    case CloseFlag => s.(closed := true)
    case StopAudioSlot => s.(streamers := Cleared(s.streamers, s.audio), audio := None)
    case StopVideoSlot => s.(streamers := Cleared(s.streamers, s.video), video := None)
    case LoopEnds(id) => s.(streamers := s.streamers[id := s.streamers[id].(phase := Ended)])
    case TakeCallback(id) =>
      var x := s.streamers[id];
      s.(streamers := s.streamers[id := x.(onEnd := None, phase := if x.onEnd.Some? then Taken(x.onEnd.value) else Over)])
    case CallBack(id) =>
      var x := s.streamers[id];
      s.(streamers := s.streamers[id := x.(phase := Over, reported := true)], reports := s.reports + [x.phase.report])
  }

  ghost predicate Possible(s: State, es: seq<Event>)
    decreases |es|
  {
    es == [] || (Enabled(s, es[0]) && Possible(Apply(s, es[0]), es[1..]))
  }

  ghost function Run(s: State, es: seq<Event>): State
    requires Possible(s, es)
    decreases |es|
  {
    if es == [] then s else Run(Apply(s, es[0]), es[1..])
  }

  // ----- What every step keeps -----

  /** The kind a source reports: audio exactly when it has audio. */
  function KindOf(sources: seq<Legs>, source: nat): Kind
    requires source < |sources|
  {
    if sources[source].audio then AudioEnd else VideoEnd
  }

  /** A callback names its own source and the source's kind, and sits on that leg only. */
  ghost predicate Proper(sources: seq<Legs>, x: Streamer, r: Report) {
    x.source < |sources| && r == Report(x.source, KindOf(sources, x.source)) && x.leg == r.kind
  }

  ghost predicate StreamerOk(sources: seq<Legs>, x: Streamer) {
    && x.source < |sources|
    && (x.onEnd.Some? ==> Proper(sources, x, x.onEnd.value))
    && (x.phase.Taken? ==> Proper(sources, x, x.phase.report))
    && (x.reported ==> x.phase.Over? && x.leg == KindOf(sources, x.source))
  }

  /** The leg under construction does not exist yet. */
  ghost predicate Unmade(s: State, leg: Kind) {
    forall i :: 0 <= i < |s.streamers| ==> !(s.streamers[i].source == |s.sources| - 1 && s.streamers[i].leg == leg)
  }

  /** The streamer about to get its callback is of the latest source and the right leg. */
  ghost predicate Building(s: State) {
    match s.pc
    case MakeAudio(_) => s.sources != [] && s.sources[|s.sources| - 1].audio && Unmade(s, AudioEnd) && Unmade(s, VideoEnd)
    case HookAudio(id, _) =>
      && s.sources != [] && s.sources[|s.sources| - 1].audio && id < |s.streamers| && Unmade(s, VideoEnd)
      && s.streamers[id].source == |s.sources| - 1 && s.streamers[id].leg == AudioEnd
    case MakeVideo(a, _) => s.sources != [] && s.sources[|s.sources| - 1].audio == a && Unmade(s, VideoEnd)
    case HookVideo(id, a) =>
      && s.sources != [] && s.sources[|s.sources| - 1].audio == a && id < |s.streamers|
      && s.streamers[id].source == |s.sources| - 1 && s.streamers[id].leg == VideoEnd
    case _ => true
  }

  ghost predicate LegsUnique(streamers: seq<Streamer>) {
    forall i, j :: 0 <= i < j < |streamers| ==>
      streamers[i].source != streamers[j].source || streamers[i].leg != streamers[j].leg
  }

  /** A report was made by the one streamer entitled to it. */
  ghost predicate Backed(s: State, r: Report) {
    && r.source < |s.sources| && r.kind == KindOf(s.sources, r.source)
    && exists i :: 0 <= i < |s.streamers| && s.streamers[i].source == r.source && s.streamers[i].reported
  }

  ghost predicate AtMostOnce(reports: seq<Report>) {
    forall i, j :: 0 <= i < j < |reports| ==> reports[i].source != reports[j].source
  }

  /** Only a streamer in a slot can still have a callback: replacing a source silences it. */
  ghost predicate OnlySlotsHooked(s: State) {
    forall i :: 0 <= i < |s.streamers| && s.streamers[i].onEnd.Some? ==> s.audio == Some(i) || s.video == Some(i)
  }

  /** set_source empties both slots before it fills them. */
  ghost predicate SlotsEmptied(s: State) {
    && (s.pc.StopVideo? || s.pc.MakeAudio? || s.pc.HookAudio? ==> s.audio == None)
    && (s.pc.MakeAudio? || s.pc.HookAudio? || s.pc.MakeVideo? || s.pc.HookVideo? ==> s.video == None)
  }

  ghost predicate Valid(s: State) {
    && (forall i :: 0 <= i < |s.streamers| ==> StreamerOk(s.sources, s.streamers[i]))
    && LegsUnique(s.streamers)
    && Building(s)
    && (forall k :: 0 <= k < |s.reports| ==> Backed(s, s.reports[k]))
    && AtMostOnce(s.reports)
    && OnlySlotsHooked(s) && SlotsEmptied(s)
  }

  /** Changing a streamer without changing whose it is, or taking back its report. */
  ghost predicate Touches(a: seq<Streamer>, b: seq<Streamer>) {
    && |a| == |b|
    && forall i :: 0 <= i < |a| ==> b[i].source == a[i].source && b[i].leg == a[i].leg && (a[i].reported ==> b[i].reported)
  }

  lemma TouchKeepsShape(s: State, t: State)
    requires Valid(s) && Touches(s.streamers, t.streamers)
    requires t.sources == s.sources && t.reports == s.reports && t.pc == s.pc
    ensures LegsUnique(t.streamers) && Building(t)
    ensures forall k :: 0 <= k < |t.reports| ==> Backed(t, t.reports[k])
  {
    forall k | 0 <= k < |t.reports|
      ensures Backed(t, t.reports[k])
    {
      assert Backed(s, s.reports[k]);
      var i :| 0 <= i < |s.streamers| && s.streamers[i].source == s.reports[k].source && s.streamers[i].reported;
      assert t.streamers[i].reported;
    }
  }

  lemma TaskStep(s: State, e: Event)
    requires Valid(s) && Enabled(s, e) && (e.LoopEnds? || e.TakeCallback?)
    ensures Valid(Apply(s, e))
  {
    TouchKeepsShape(s, Apply(s, e));
  }

  /** A streamer about to call back is the first of its source to do so. */
  lemma NotYetReported(s: State, id: nat)
    requires Valid(s) && id < |s.streamers| && s.streamers[id].phase.Taken?
    ensures forall k :: 0 <= k < |s.reports| ==> s.reports[k].source != s.streamers[id].phase.report.source
  {
    var x := s.streamers[id];
    assert StreamerOk(s.sources, x);
    forall k | 0 <= k < |s.reports|
      ensures s.reports[k].source != x.phase.report.source
    {
      assert Backed(s, s.reports[k]);
      var i :| 0 <= i < |s.streamers| && s.streamers[i].source == s.reports[k].source && s.streamers[i].reported;
      assert StreamerOk(s.sources, s.streamers[i]);
    }
  }

  lemma CallBackStep(s: State, id: nat)
    requires Valid(s) && Enabled(s, CallBack(id))
    ensures Valid(Apply(s, CallBack(id)))
  {
    var t := Apply(s, CallBack(id));
    var x, r := s.streamers[id], s.streamers[id].phase.report;
    assert StreamerOk(s.sources, x);
    TouchKeepsShape(s, t.(reports := s.reports));
    forall k | 0 <= k < |t.reports|
      ensures Backed(t, t.reports[k])
    {
      if k < |s.reports| {
        assert Backed(t.(reports := s.reports), s.reports[k]);
      } else {
        assert t.streamers[id].reported;
      }
    }
    NotYetReported(s, id);
  }

  lemma StopSlotStep(s: State, t: State, slot: Option<nat>)
    requires Valid(s) && (slot == s.audio || slot == s.video)
    requires t.streamers == Cleared(s.streamers, slot)
    requires t.sources == s.sources && t.reports == s.reports && t.pc == s.pc
    requires (t.audio == s.audio || (t.audio == None && slot == s.audio)) && (t.video == s.video || (t.video == None && slot == s.video))
    ensures Valid(t)
  {
    TouchKeepsShape(s, t);
  }

  lemma HookStep(s: State, id: nat, kind: Kind)
    requires Valid(s) && id < |s.streamers| && (s.pc.HookAudio? || s.pc.HookVideo?)
    requires Proper(s.sources, s.streamers[id], Report(s.streamers[id].source, kind))
    ensures var t := s.(streamers := Hooked(s.streamers, id, kind));
            && (forall i :: 0 <= i < |t.streamers| ==> StreamerOk(t.sources, t.streamers[i]))
            && LegsUnique(t.streamers) && Building(t)
            && (forall k :: 0 <= k < |t.reports| ==> Backed(t, t.reports[k]))
            && (forall i :: 0 <= i < |t.streamers| && t.streamers[i].onEnd.Some? ==> s.audio == Some(i) || s.video == Some(i) || i == id)
  {
    TouchKeepsShape(s, s.(streamers := Hooked(s.streamers, id, kind)));
  }

  /** A new streamer of the latest source, on a leg not yet made. */
  lemma MakeStep(s: State, leg: Kind)
    requires Valid(s) && s.sources != [] && Unmade(s, leg)
    ensures var streamers := s.streamers + [Fresh(s, leg)];
            && (forall i :: 0 <= i < |streamers| ==> StreamerOk(s.sources, streamers[i]))
            && LegsUnique(streamers)
            && (forall k :: 0 <= k < |s.reports| ==> Backed(s.(streamers := streamers), s.reports[k]))
            && (forall i :: 0 <= i < |streamers| && streamers[i].onEnd.Some? ==> i < |s.streamers|)
  {
    var streamers := s.streamers + [Fresh(s, leg)];
    forall k | 0 <= k < |s.reports|
      ensures Backed(s.(streamers := streamers), s.reports[k])
    {
      assert Backed(s, s.reports[k]);
      var i :| 0 <= i < |s.streamers| && s.streamers[i].source == s.reports[k].source && s.streamers[i].reported;
      assert streamers[i] == s.streamers[i];
    }
  }

  /** A new source: everything said of the old ones stays true. */
  lemma NewSource(s: State, legs: Legs)
    requires Valid(s)
    ensures var sources := s.sources + [legs];
            && (forall i :: 0 <= i < |s.streamers| ==> StreamerOk(sources, s.streamers[i]) && s.streamers[i].source < |sources| - 1)
            && (forall k :: 0 <= k < |s.reports| ==> Backed(s.(sources := sources), s.reports[k]))
  {
    var sources := s.sources + [legs];
    forall i | 0 <= i < |s.streamers|
      ensures StreamerOk(sources, s.streamers[i]) && s.streamers[i].source < |sources| - 1
    {
      assert StreamerOk(s.sources, s.streamers[i]);
    }
    forall k | 0 <= k < |s.reports|
      ensures Backed(s.(sources := sources), s.reports[k])
    {
      assert Backed(s, s.reports[k]);
    }
  }

  lemma EmptyStepValid(s: State)
    requires Valid(s) && (s.pc.StopAudio? || s.pc.StopVideo?)
    ensures Valid(SetSourceStep(s))
  {
    match s.pc
    case StopAudio(a, v) =>
      StopSlotStep(s, s.(streamers := Cleared(s.streamers, s.audio), audio := None), s.audio);
    case StopVideo(a, v) =>
      var t := s.(streamers := Cleared(s.streamers, s.video), video := None);
      StopSlotStep(s, t, s.video);
      NewSource(t, Legs(a, v));
  }

  lemma AudioStepValid(s: State)
    requires Valid(s) && (s.pc.MakeAudio? || s.pc.HookAudio?) && Enabled(s, SetStep)
    ensures Valid(SetSourceStep(s))
  {
    match s.pc
    case MakeAudio(v) => MakeStep(s, AudioEnd);
    case HookAudio(id, v) => HookStep(s, id, AudioEnd);
  }

  lemma VideoStepValid(s: State)
    requires Valid(s) && (s.pc.MakeVideo? || s.pc.HookVideo?) && Enabled(s, SetStep)
    ensures Valid(SetSourceStep(s))
  {
    match s.pc
    case MakeVideo(a, v) =>
      if v {
        MakeStep(s, VideoEnd);
      }
    case HookVideo(id, a) =>
      if !a {
        HookStep(s, id, VideoEnd);
      }
  }

  lemma SetStepValid(s: State)
    requires Valid(s) && Enabled(s, SetStep)
    ensures Valid(SetSourceStep(s))
  {
    if s.pc.StopAudio? || s.pc.StopVideo? {
      EmptyStepValid(s);
    } else if s.pc.MakeAudio? || s.pc.HookAudio? {
      AudioStepValid(s);
    } else {
      VideoStepValid(s);
    }
  }

  lemma ValidStep(s: State, e: Event)
    requires Valid(s) && Enabled(s, e)
    ensures Valid(Apply(s, e))
  {
    match e
    case SetStep => SetStepValid(s);
    case StopAudioSlot => StopSlotStep(s, Apply(s, e), s.audio);
    case StopVideoSlot => StopSlotStep(s, Apply(s, e), s.video);
    case LoopEnds(_) => TaskStep(s, e);
    case TakeCallback(_) => TaskStep(s, e);
    case CallBack(id) => CallBackStep(s, id);
    case _ =>
  }

  lemma {:induction false} ValidRun(s: State, es: seq<Event>)
    requires Valid(s) && Possible(s, es)
    ensures Valid(Run(s, es))
    decreases |es|
  {
    if es != [] {
      ValidStep(s, es[0]);
      ValidRun(Apply(s, es[0]), es[1..]);
    }
  }

  /** Over every interleaving of set_source, stop and the streamers' tasks: a source reports its
      end at most once, and what it reports is audio exactly when it has audio. */
  lemma OneEndPerSource(es: seq<Event>)
    requires Possible(INIT, es)
    ensures var s := Run(INIT, es);
            && AtMostOnce(s.reports)
            && forall k :: 0 <= k < |s.reports| ==>
                 s.reports[k].source < |s.sources| && s.reports[k].kind == KindOf(s.sources, s.reports[k].source)
  {
    ValidRun(INIT, es);
    var s := Run(INIT, es);
    assert forall k :: 0 <= k < |s.reports| ==> Backed(s, s.reports[k]);
  }

  // ----- Callbacks are used up -----

  /** A callback taken is out of its slot; a streamer about to get one has not had one. */
  ghost predicate UsedUp(s: State) {
    && (forall i :: 0 <= i < |s.streamers| && (s.streamers[i].phase.Taken? || s.streamers[i].reported) ==> s.streamers[i].onEnd == None)
    && ((s.pc.HookAudio? || s.pc.HookVideo?) && s.pc.id < |s.streamers| ==>
          var x := s.streamers[s.pc.id]; x.onEnd == None && !x.phase.Taken? && !x.reported)
  }

  lemma UsedUpSetStep(s: State)
    requires UsedUp(s) && Enabled(s, SetStep)
    ensures UsedUp(SetSourceStep(s))
  {
  }

  lemma UsedUpStep(s: State, e: Event)
    requires UsedUp(s) && Enabled(s, e)
    ensures UsedUp(Apply(s, e))
  {
    if e.SetStep? {
      UsedUpSetStep(s);
    }
  }

  /** Over every interleaving: a callback that was taken or called is held no longer. */
  lemma {:induction false} UsedUpRun(s: State, es: seq<Event>)
    requires UsedUp(s) && Possible(s, es)
    ensures UsedUp(Run(s, es))
    decreases |es|
  {
    if es != [] {
      UsedUpStep(s, es[0]);
      UsedUpRun(Apply(s, es[0]), es[1..]);
    }
  }

  // ----- Silence after a stop -----

  /** Past the point where it gets its callback, without one, and not calling it. */
  ghost predicate Silenced(s: State, id: nat) {
    && id < |s.streamers| && s.streamers[id].onEnd == None
    && !s.streamers[id].phase.Taken? && !s.streamers[id].reported
    && (s.pc.HookAudio? ==> s.pc.id != id) && (s.pc.HookVideo? ==> s.pc.id != id)
  }

  lemma SilencedStep(s: State, e: Event, id: nat)
    requires Silenced(s, id) && Enabled(s, e)
    ensures Silenced(Apply(s, e), id)
  {
  }

  /** A streamer stopped before its callback is taken never reports, whatever happens after. */
  lemma {:induction false} SilencedRun(s: State, es: seq<Event>, id: nat)
    requires Silenced(s, id) && Possible(s, es)
    ensures Silenced(Run(s, es), id)
    decreases |es|
  {
    if es != [] {
      SilencedStep(s, es[0], id);
      SilencedRun(Apply(s, es[0]), es[1..], id);
    }
  }

  /** Once set_source has emptied the slots, every streamer made before that has either taken
      its callback already or is silenced for good. */
  lemma ReplacedAreSilenced(s: State, id: nat)
    requires Valid(s) && s.pc.StopVideo? && id < |s.streamers|
    ensures var t := SetSourceStep(s);
            t.streamers[id].phase.Taken? || t.streamers[id].reported || Silenced(t, id)
  {
    var t := SetSourceStep(s);
    assert t.streamers[id].onEnd == None;
  }

  // ----- What stop leaves behind -----

  ghost predicate NobodyHooked(s: State) {
    forall i :: 0 <= i < |s.streamers| ==> s.streamers[i].onEnd == None
  }

  /** The call is closed and nothing of it is under way or waiting. */
  predicate Quiet(s: State) {
    s.closed && s.pc.Idle? && s.admitted == 0
  }

  function Stopped(s: State): State
    requires s.closed && s.pc.Idle?
  {
    Apply(Apply(s, StopAudioSlot), StopVideoSlot)
  }

  lemma StoppedNobodyHooked(s: State)
    requires Valid(s) && s.closed && s.pc.Idle?
    ensures NobodyHooked(Stopped(s)) && Stopped(s).admitted == s.admitted && Stopped(s).closed && Stopped(s).pc.Idle?
  {
  }

  lemma QuietStep(s: State, e: Event)
    requires Quiet(s) && NobodyHooked(s) && Enabled(s, e)
    ensures Quiet(Apply(s, e)) && NobodyHooked(Apply(s, e))
  {
  }

  lemma {:induction false} QuietRun(s: State, es: seq<Event>)
    requires Quiet(s) && NobodyHooked(s) && Possible(s, es)
    ensures NobodyHooked(Run(s, es))
    decreases |es|
  {
    if es != [] {
      QuietStep(s, es[0]);
      QuietRun(Apply(s, es[0]), es[1..]);
    }
  }

  lemma {:induction false} RunAppend(s: State, es: seq<Event>, e: Event)
    requires Possible(s, es) && Enabled(Run(s, es), e)
    ensures Possible(s, es + [e]) && Run(s, es + [e]) == Apply(Run(s, es), e)
    decreases |es|
  {
    if es != [] {
      RunAppend(Apply(s, es[0]), es[1..], e);
      assert (es + [e])[0] == es[0] && (es + [e])[1..] == es[1..] + [e];
    } else {
      assert [] + [e] == [e] && [e][1..] == [];
    }
  }

  /** What set_source does for a source with audio only, from the locks to the end. */
  const AUDIO_SOURCE: seq<Event> := [Begin(true, false), SetStep, SetStep, SetStep, SetStep, SetStep]

  /** Up to the point where both slots are empty. */
  lemma SourceBegins(s: State, es: seq<Event>)
    requires Possible(s, es) && Run(s, es).pc.Idle? && Run(s, es).admitted > 0
    ensures var begun := es + [Begin(true, false)] + [SetStep] + [SetStep];
            && Possible(s, begun)
            && var t, u := Run(s, es), Run(s, begun);
               && |u.streamers| == |t.streamers| && u.sources == t.sources + [Legs(true, false)] && u.reports == t.reports
               && u.closed == t.closed && u.pc == MakeAudio(false)
  {
    RunAppend(s, es, Begin(true, false));
    RunAppend(s, es + [Begin(true, false)], SetStep);
    RunAppend(s, es + [Begin(true, false)] + [SetStep], SetStep);
  }

  /** On to the end, without video. */
  lemma SourceMade(s: State, es: seq<Event>)
    requires Possible(s, es) && Run(s, es).pc == MakeAudio(false) && Run(s, es).sources != []
    ensures var made := es + [SetStep] + [SetStep] + [SetStep];
            && Possible(s, made)
            && var t, u := Run(s, es), Run(s, made);
               && |u.streamers| == |t.streamers| + 1 && u.sources == t.sources && u.reports == t.reports
               && u.closed == t.closed && u.pc.Idle?
               && u.streamers[|t.streamers|] == Fresh(t, AudioEnd).(onEnd := Some(Report(|t.sources| - 1, AudioEnd)))
  {
    RunAppend(s, es, SetStep);
    RunAppend(s, es + [SetStep], SetStep);
    RunAppend(s, es + [SetStep] + [SetStep], SetStep);
  }

  /** A set_source let in before the call was closed installs its source all the same. */
  lemma LateSource(s: State, es: seq<Event>)
    requires Possible(s, es) && Run(s, es).pc.Idle? && Run(s, es).admitted > 0
    ensures Possible(s, es + AUDIO_SOURCE)
    ensures var t, u := Run(s, es), Run(s, es + AUDIO_SOURCE);
            && u.closed == t.closed && u.reports == t.reports && |u.streamers| == |t.streamers| + 1
            && u.streamers[|t.streamers|]
               == Streamer(|t.sources|, AudioEnd, Some(Report(|t.sources|, AudioEnd)), Looping, false, true)
  {
    SourceBegins(s, es);
    SourceMade(s, es + [Begin(true, false)] + [SetStep] + [SetStep]);
    assert es + AUDIO_SOURCE == es + [Begin(true, false)] + [SetStep] + [SetStep] + [SetStep] + [SetStep] + [SetStep];
  }

  /** stop silences the call for good exactly when no set_source was let in and is still waiting. */
  lemma StopSilencesIff(s: State)
    requires Valid(s) && s.closed && s.pc.Idle?
    ensures (forall es :: Possible(Stopped(s), es) ==> NobodyHooked(Run(Stopped(s), es))) <==> s.admitted == 0
  {
    var t := Stopped(s);
    StoppedNobodyHooked(s);
    if s.admitted == 0 {
      forall es | Possible(t, es)
        ensures NobodyHooked(Run(t, es))
      {
        QuietRun(t, es);
      }
    } else {
      LateSource(t, []);
      assert [] + AUDIO_SOURCE == AUDIO_SOURCE;
      assert Possible(t, AUDIO_SOURCE) && !NobodyHooked(Run(t, AUDIO_SOURCE));
    }
  }

  /** A streamer with a callback goes on to report. */
  lemma GoesOnToReport(s: State, es: seq<Event>, id: nat)
    requires Possible(s, es) && id < |Run(s, es).streamers|
    requires Run(s, es).streamers[id].phase.Looping? && Run(s, es).streamers[id].onEnd.Some?
    ensures var all, x := es + [LoopEnds(id), TakeCallback(id), CallBack(id)], Run(s, es).streamers[id];
            && Possible(s, all) && Run(s, all).closed == Run(s, es).closed
            && Run(s, all).reports == Run(s, es).reports + [x.onEnd.value]
  {
    RunAppend(s, es, LoopEnds(id));
    RunAppend(s, es + [LoopEnds(id)], TakeCallback(id));
    RunAppend(s, es + [LoopEnds(id)] + [TakeCallback(id)], CallBack(id));
    assert es + [LoopEnds(id), TakeCallback(id), CallBack(id)]
           == es + [LoopEnds(id)] + [TakeCallback(id)] + [CallBack(id)];
  }

  /** A call stopped while a set_source is on its way in. */
  const STOPPED_EARLY: seq<Event> := [Admit, CloseFlag, StopAudioSlot, StopVideoSlot]

  lemma StoppedEarly()
    ensures Possible(INIT, STOPPED_EARLY) && Run(INIT, STOPPED_EARLY) == INIT.(closed := true, admitted := 1)
  {
    RunAppend(INIT, [], Admit);
    RunAppend(INIT, [] + [Admit], CloseFlag);
    RunAppend(INIT, [] + [Admit] + [CloseFlag], StopAudioSlot);
    RunAppend(INIT, [] + [Admit] + [CloseFlag] + [StopAudioSlot], StopVideoSlot);
    assert STOPPED_EARLY == [] + [Admit] + [CloseFlag] + [StopAudioSlot] + [StopVideoSlot];
  }

  /** The run in which a stopped call reports the end of a source. */
  lemma ReportsAfterStop()
    ensures var es := STOPPED_EARLY + AUDIO_SOURCE + [LoopEnds(0), TakeCallback(0), CallBack(0)];
            Possible(INIT, es) && Run(INIT, es).closed && Run(INIT, es).reports == [Report(0, AudioEnd)]
  {
    StoppedEarly();
    LateSource(INIT, STOPPED_EARLY);
    GoesOnToReport(INIT, STOPPED_EARLY + AUDIO_SOURCE, 0);
  }
}
