/** Which streamers of a group call run, and which the slots hold, over every interleaving of
    set_source, stop and the streamers' tasks (instances/group_call.rs). A streamer outside the
    slots is out of reach of pause, mute, stop and the next set_source. */
module StreamSlots {
  import opened Media
  import opened StreamEnds

  /** The sources whose set_source took the locks, in order. */
  function Sources(es: seq<Event>): seq<Legs>
    decreases |es|
  {
    if es == [] then []
    else (match es[0] case Begin(a, v) => [Legs(a, v)] case _ => []) + Sources(es[1..])
  }

  /** Those installed, and the one about to be. */
  function Announced(s: State): seq<Legs> {
    s.sources + match s.pc
                case StopAudio(a, v) => [Legs(a, v)]
                case StopVideo(a, v) => [Legs(a, v)]
                case _ => []
  }

  lemma {:induction false} SourcesAnnounced(s: State, es: seq<Event>)
    requires Possible(s, es)
    ensures Announced(Run(s, es)) == Announced(s) + Sources(es)
    decreases |es|
  {
    if es == [] {
      EmptyEnds(Announced(s));
    } else {
      var now := match es[0] case Begin(a, v) => [Legs(a, v)] case _ => [];
      assert Announced(Apply(s, es[0])) == Announced(s) + now;
      SourcesAnnounced(Apply(s, es[0]), es[1..]);
      Assoc(Announced(s), now, Sources(es[1..]));
    }
  }

  /** A streamer of the latest source on this leg. */
  predicate IsLatest(s: State, id: nat, leg: Kind) {
    id < |s.streamers| && s.streamers[id].leg == leg && s.streamers[id].source == |s.sources| - 1
  }

  ghost predicate InSlot(s: State, slot: Option<nat>, leg: Kind) {
    slot.Some? ==> IsLatest(s, slot.value, leg) && s.streamers[slot.value].running
  }

  predicate LatestHas(s: State, leg: Kind) {
    s.sources != [] && if leg.AudioEnd? then s.sources[|s.sources| - 1].audio else s.sources[|s.sources| - 1].video
  }

  /** Where set_source is, the slots are as full as the latest source asks. */
  ghost predicate Filled(s: State) {
    match s.pc
    case Idle => !s.closed ==> (s.audio.Some? <==> LatestHas(s, AudioEnd)) && (s.video.Some? <==> LatestHas(s, VideoEnd))
    case MakeAudio(v) => v == LatestHas(s, VideoEnd) && LatestHas(s, AudioEnd)
    case HookAudio(id, v) =>
      v == LatestHas(s, VideoEnd) && LatestHas(s, AudioEnd) && IsLatest(s, id, AudioEnd) && s.streamers[id].running
    case MakeVideo(a, v) => v == LatestHas(s, VideoEnd) && a == LatestHas(s, AudioEnd) == s.audio.Some?
    case HookVideo(id, a) =>
      && LatestHas(s, VideoEnd) && a == LatestHas(s, AudioEnd) == s.audio.Some?
      && IsLatest(s, id, VideoEnd) && s.streamers[id].running
    case _ => true
  }

  /** The streamer set_source has just made and not yet put in its slot. */
  predicate InHand(s: State, id: nat) {
    (s.pc.HookAudio? || s.pc.HookVideo?) && s.pc.id == id
  }

  /** A running streamer is in its slot or in hand. */
  ghost predicate NoStrays(s: State) {
    forall i :: 0 <= i < |s.streamers| && s.streamers[i].running ==> s.audio == Some(i) || s.video == Some(i) || InHand(s, i)
  }

  ghost predicate SlotsRight(s: State) {
    && InSlot(s, s.audio, AudioEnd) && InSlot(s, s.video, VideoEnd)
    && SlotsEmptied(s) && Filled(s) && NoStrays(s)
  }

  lemma EmptyStepSlots(s: State)
    requires SlotsRight(s) && (s.pc.StopAudio? || s.pc.StopVideo?)
    ensures SlotsRight(SetSourceStep(s))
  {
  }

  lemma MakeStepSlots(s: State)
    requires SlotsRight(s) && (s.pc.MakeAudio? || s.pc.MakeVideo?) && Enabled(s, SetStep)
    ensures SlotsRight(SetSourceStep(s))
  {
  }

  lemma HookStepSlots(s: State)
    requires SlotsRight(s) && (s.pc.HookAudio? || s.pc.HookVideo?)
    ensures SlotsRight(SetSourceStep(s))
  {
  }

  lemma StopStepSlots(s: State, e: Event)
    requires SlotsRight(s) && Enabled(s, e) && (e.StopAudioSlot? || e.StopVideoSlot?)
    ensures SlotsRight(Apply(s, e))
  {
  }

  lemma SameStreamers(s: State, t: State)
    requires SlotsRight(s) && t == s.(streamers := t.streamers, reports := t.reports) && |t.streamers| == |s.streamers|
    requires forall i :: 0 <= i < |s.streamers| ==>
               && t.streamers[i].leg == s.streamers[i].leg && t.streamers[i].source == s.streamers[i].source
               && t.streamers[i].running == s.streamers[i].running
    ensures SlotsRight(t)
  {
  }

  lemma TaskStepSlots(s: State, e: Event)
    requires SlotsRight(s) && Enabled(s, e) && (e.LoopEnds? || e.TakeCallback? || e.CallBack?)
    ensures SlotsRight(Apply(s, e))
  {
    SameStreamers(s, Apply(s, e));
  }

  lemma SlotsStep(s: State, e: Event)
    requires SlotsRight(s) && Enabled(s, e)
    ensures SlotsRight(Apply(s, e))
  {
    match e
    case SetStep =>
      if s.pc.StopAudio? || s.pc.StopVideo? {
        EmptyStepSlots(s);
      } else if s.pc.MakeAudio? || s.pc.MakeVideo? {
        MakeStepSlots(s);
      } else {
        HookStepSlots(s);
      }
    case StopAudioSlot => StopStepSlots(s, e);
    case StopVideoSlot => StopStepSlots(s, e);
    case LoopEnds(_) => TaskStepSlots(s, e);
    case TakeCallback(_) => TaskStepSlots(s, e);
    case CallBack(_) => TaskStepSlots(s, e);
    case _ =>
  }

  lemma {:induction false} SlotsRun(s: State, es: seq<Event>)
    requires SlotsRight(s) && Possible(s, es)
    ensures SlotsRight(Run(s, es))
    decreases |es|
  {
    if es != [] {
      SlotsStep(s, es[0]);
      SlotsRun(Apply(s, es[0]), es[1..]);
    }
  }

  /** A slot holds the latest source's streamer on its leg, nothing when the source lacks that leg. */
  ghost predicate Holds(s: State, slot: Option<nat>, leg: Kind) {
    && (slot.Some? <==> LatestHas(s, leg))
    && forall i: nat :: slot == Some(i) <==> IsLatest(s, i, leg) && s.streamers[i].running
  }

  lemma SlotHolds(s: State, slot: Option<nat>, leg: Kind)
    requires SlotsRight(s) && s.pc.Idle? && !s.closed && slot == (if leg.AudioEnd? then s.audio else s.video)
    ensures Holds(s, slot, leg)
  {
    forall i: nat | IsLatest(s, i, leg) && s.streamers[i].running
      ensures slot == Some(i)
    {
      assert s.audio == Some(i) || s.video == Some(i);
    }
  }

  lemma OnlySlotsRun(s: State)
    requires SlotsRight(s) && s.pc.Idle?
    ensures forall i :: 0 <= i < |s.streamers| ==> (s.streamers[i].running <==> s.audio == Some(i) || s.video == Some(i))
  {
  }

  /** Over every interleaving, whenever no set_source is at work and the call is not closed: the slots
      hold exactly the streamers of the latest source, and those two alone run. */
  lemma SlotsHoldTheLatest(es: seq<Event>)
    requires Possible(INIT, es) && Run(INIT, es).pc.Idle? && !Run(INIT, es).closed
    ensures var s := Run(INIT, es);
            && s.sources == Sources(es)
            && Holds(s, s.audio, AudioEnd) && Holds(s, s.video, VideoEnd)
            && forall i :: 0 <= i < |s.streamers| ==> (s.streamers[i].running <==> s.audio == Some(i) || s.video == Some(i))
  {
    var s := Run(INIT, es);
    SourcesAnnounced(INIT, es);
    EmptyEnds(Sources(es));
    EmptyEnds(s.sources);
    SlotsRun(INIT, es);
    SlotHolds(s, s.audio, AudioEnd);
    SlotHolds(s, s.video, VideoEnd);
    OnlySlotsRun(s);
  }

  // ----- Stop -----

  ghost predicate NobodyRuns(s: State) {
    s.audio == None && s.video == None && forall i :: 0 <= i < |s.streamers| ==> !s.streamers[i].running
  }

  lemma StoppedNobodyRuns(s: State)
    requires SlotsRight(s) && s.closed && s.pc.Idle?
    ensures NobodyRuns(Stopped(s))
  {
  }

  lemma QuietStays(s: State, e: Event)
    requires Quiet(s) && NobodyRuns(s) && Enabled(s, e)
    ensures Quiet(Apply(s, e)) && NobodyRuns(Apply(s, e))
  {
  }

  lemma {:induction false} QuietForGood(s: State, es: seq<Event>)
    requires Quiet(s) && NobodyRuns(s) && Possible(s, es)
    ensures NobodyRuns(Run(s, es))
    decreases |es|
  {
    if es != [] {
      QuietStays(s, es[0]);
      QuietForGood(Apply(s, es[0]), es[1..]);
    }
  }

  /** Stop's two slot steps leave both slots empty and no streamer running; when no set_source was
      waiting, it stays so whatever happens after. */
  lemma StopHaltsAll(es: seq<Event>, more: seq<Event>)
    requires Possible(INIT, es) && Run(INIT, es).pc.Idle? && Run(INIT, es).closed
    requires Possible(Stopped(Run(INIT, es)), more)
    ensures var s := Run(INIT, es);
            NobodyRuns(Stopped(s)) && (s.admitted == 0 ==> NobodyRuns(Run(Stopped(s), more)))
  {
    var s := Run(INIT, es);
    SlotsRun(INIT, es);
    StoppedNobodyRuns(s);
    if s.admitted == 0 {
      QuietForGood(Stopped(s), more);
    }
  }
}
