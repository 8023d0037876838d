/** The GroupCall object of instances/group_call.rs, as far as sources and their ends go:
    set_source and stop as the program writes them, proved to be the uninterrupted case of the
    steps of module StreamEnds. */
module GroupCalls {
  import opened Media
  import S = StreamEnds
  import StreamSlots

  /** How many steps set_source still makes at most. */
  function Rank(pc: S.SetPc): nat {
    match pc
    case StopAudio(_, _) => 6
    case StopVideo(_, _) => 5
    case MakeAudio(_) => 4
    case HookAudio(_, _) => 3
    case MakeVideo(_, _) => 2
    case HookVideo(_, _) => 1
    case Idle => 0
  }

  /** set_source run to its end with nothing in between. */
  function Finish(s: S.State): S.State
    requires Rank(s.pc) <= 4 ==> s.sources != []
    decreases Rank(s.pc)
  {
    if s.pc.Idle? then s else Finish(S.SetSourceStep(s))
  }

  /** The last leg: one step without video, two with. */
  lemma FinishLeg(s: S.State)
    requires s.sources != [] && s.pc.MakeVideo?
    ensures Finish(s) == if s.pc.hasVideo then S.SetSourceStep(S.SetSourceStep(s)) else S.SetSourceStep(s)
  {
    var s1 := S.SetSourceStep(s);
    assert Finish(s) == Finish(s1);
    if s.pc.hasVideo {
      assert Finish(s1) == Finish(S.SetSourceStep(s1));
    }
  }

  lemma FinishTwo(s: S.State)
    requires s.pc.StopAudio? || (s.pc.MakeAudio? && s.sources != [])
    ensures Finish(s) == Finish(S.SetSourceStep(S.SetSourceStep(s)))
  {
    assert Finish(s) == Finish(S.SetSourceStep(s));
  }

  class GroupCall {
    var closed: bool
    var audioStreamer: Option<nat>
    var videoStreamer: Option<nat>
    var streamers: seq<S.Streamer> // every streamer made so far
    var sources: seq<S.Legs>       // of every source installed so far
    var pausedAtStart: seq<bool>   // of every streamer made so far: pause() before its callback is set
    var paused: bool
    var muted: bool
    var mediaResets: nat           // calls of the stack's reset_media_track_state
    var stackCloses: nat           // closings of the stack asked for
    ghost var reports: seq<S.Report>

    /** No set_source under way, none waiting. */
    ghost function View(): S.State
      reads this
    {
      S.State(closed, 0, S.Idle, audioStreamer, videoStreamer, streamers, sources, reports)
    }

    constructor ()
      ensures View() == S.INIT && pausedAtStart == [] && !paused && !muted && mediaResets == 0 && stackCloses == 0
    {
      closed, audioStreamer, videoStreamer := false, None, None;
      streamers, sources, reports := [], [], [];
      pausedAtStart, paused, muted, mediaResets, stackCloses := [], false, false, 0, 0;
    }

    /** Streamer::stop of the streamer in a slot, as far as its callback goes. */
    method StopStreamer(slot: Option<nat>)
      modifies `streamers
      ensures streamers == S.Cleared(old(streamers), slot)
    {
      if slot.Some? && slot.value < |streamers| {
        streamers := streamers[slot.value := streamers[slot.value].(onEnd := None, running := false)];
      }
    }

    /** A new streamer of the latest source; its tasks start at once, before it is paused, if it is,
        and before it has a callback. */
    method NewStreamer(leg: S.Kind, pause: bool) returns (id: nat)
      requires sources != []
      modifies `streamers, `pausedAtStart
      ensures id == |old(streamers)| && streamers == old(streamers) + [S.Fresh(old(View()), leg)]
      ensures pausedAtStart == old(pausedAtStart) + [pause]
    {
      id := |streamers|;
      streamers := streamers + [S.Streamer(|sources| - 1, leg, None, S.Looping, false, true)];
      pausedAtStart := pausedAtStart + [pause];
    }

    method OnEnd(id: nat, kind: S.Kind)
      requires id < |streamers|
      modifies `streamers
      ensures streamers == S.Hooked(old(streamers), id, kind)
    {
      streamers := streamers[id := streamers[id].(onEnd := Some(S.Report(streamers[id].source, kind)))];
    }

    /** Both old streamers are stopped before anything of the new source exists; the callback
        goes to the audio streamer, or to the video streamer of a source without audio.
        `connected` is the outcome of the wait for the connection. */
    method SetSource(audio: bool, video: bool, connected: bool) returns (r: Option<Error>)
      modifies this
      ensures r == if old(closed) then Some(Closed) else if !connected then Some(Internal) else None
      ensures View() == if r == None then Finish(old(View()).(pc := S.StopAudio(audio, video))) else old(View())
      ensures r == None ==>
                && audioStreamer == (if audio then Some(|old(streamers)|) else None)
                && videoStreamer == (if video then Some(|old(streamers)| + if audio then 1 else 0) else None)
                && |streamers| == |old(streamers)| + (if audio then 1 else 0) + (if video then 1 else 0)
      ensures mediaResets == old(mediaResets) + (if r == None then 1 else 0)
      ensures pausedAtStart == old(pausedAtStart)
                               + (if r == None && audio then [muted || paused] else [])
                               + (if r == None && video then [paused] else [])
      ensures paused == old(paused) && muted == old(muted) && stackCloses == old(stackCloses)
    {
      if closed {
        return Some(Closed);
      }
      if !connected {
        return Some(Internal);
      }
      ghost var begin := View().(pc := S.StopAudio(audio, video));
      DropOldSource(audio, video);
      ghost var emptied := S.SetSourceStep(S.SetSourceStep(begin));
      FinishTwo(begin);
      if audio {
        InstallAudio(video);
        FinishTwo(emptied);
      }
      ghost var legged := if audio then S.SetSourceStep(S.SetSourceStep(emptied)) else emptied;
      FinishLeg(legged);
      if video {
        InstallVideo(audio);
      }
      return None;
    }

    method DropOldSource(audio: bool, video: bool)
      modifies `streamers, `audioStreamer, `videoStreamer, `sources, `mediaResets
      ensures View() == S.SetSourceStep(S.SetSourceStep(old(View()).(pc := S.StopAudio(audio, video)))).(pc := S.Idle)
      ensures audioStreamer == None && videoStreamer == None && |streamers| == |old(streamers)|
      ensures mediaResets == old(mediaResets) + 1
    {
      StopStreamer(audioStreamer);
      audioStreamer := None;
      StopStreamer(videoStreamer);
      videoStreamer := None;
      mediaResets := mediaResets + 1;
      sources := sources + [S.Legs(audio, video)];
    }

    method InstallAudio(ghost video: bool)
      requires sources != []
      modifies `streamers, `audioStreamer, `pausedAtStart
      ensures pausedAtStart == old(pausedAtStart) + [muted || paused]
      ensures audioStreamer == Some(|old(streamers)|) && |streamers| == |old(streamers)| + 1
      ensures View() == S.SetSourceStep(S.SetSourceStep(old(View()).(pc := S.MakeAudio(video)))).(pc := S.Idle)
    {
      var id := NewStreamer(S.AudioEnd, muted || paused);
      OnEnd(id, S.AudioEnd);
      audioStreamer := Some(id);
    }

    method InstallVideo(audio: bool)
      requires sources != []
      modifies `streamers, `videoStreamer, `pausedAtStart
      ensures pausedAtStart == old(pausedAtStart) + [paused]
      ensures videoStreamer == Some(|old(streamers)|) && |streamers| == |old(streamers)| + 1
      ensures View() == S.SetSourceStep(S.SetSourceStep(old(View()).(pc := S.MakeVideo(audio, true))))
    {
      var id := NewStreamer(S.VideoEnd, paused);
      if !audio {
        OnEnd(id, S.VideoEnd);
      }
      videoStreamer := Some(id);
    }

    /** The first stop empties both slots, leaves nobody running or able to report, lifts pause and mute, and has
        the stack closed; later ones do nothing. */
    method Stop()
      modifies this
      ensures View() == if old(closed) then old(View()) else S.Stopped(old(View()).(closed := true))
      ensures !old(closed) ==> audioStreamer == None && videoStreamer == None
      ensures !old(closed) && S.Valid(old(View())) ==> S.NobodyHooked(View())
      ensures !old(closed) && StreamSlots.SlotsRight(old(View())) ==> StreamSlots.NobodyRuns(View())
      ensures if old(closed) then paused == old(paused) && muted == old(muted) else !paused && !muted
      ensures stackCloses == old(stackCloses) + if old(closed) then 0 else 1
      ensures pausedAtStart == old(pausedAtStart) && mediaResets == old(mediaResets)
    {
      if closed {
        return;
      }
      closed := true;
      StopStreamer(audioStreamer);
      audioStreamer := None;
      StopStreamer(videoStreamer);
      videoStreamer := None;
      paused := false;
      muted := false;
      stackCloses := stackCloses + 1;
      StopsAll(old(View()));
    }
  }

  lemma StopsAll(s: S.State)
    requires s.pc.Idle?
    ensures S.Valid(s) ==> S.NobodyHooked(S.Stopped(s.(closed := true)))
    ensures StreamSlots.SlotsRight(s) ==> StreamSlots.NobodyRuns(S.Stopped(s.(closed := true)))
  {
    if StreamSlots.SlotsRight(s) {
      StreamSlots.SlotsStep(s, S.CloseFlag);
      StreamSlots.StoppedNobodyRuns(s.(closed := true));
    }
    if S.Valid(s) {
      S.ValidStep(s, S.CloseFlag);
      S.StoppedNobodyHooked(s.(closed := true));
    }
  }

  lemma {:induction false} FinishSlots(s: S.State)
    requires StreamSlots.SlotsRight(s) && (Rank(s.pc) <= 4 ==> s.sources != [])
    ensures StreamSlots.SlotsRight(Finish(s)) && Finish(s).pc.Idle? && Finish(s).closed == s.closed
    decreases Rank(s.pc)
  {
    if !s.pc.Idle? {
      StreamSlots.SlotsStep(s, S.SetStep);
      FinishSlots(S.SetSourceStep(s));
    }
  }

  lemma {:induction false} FinishSources(s: S.State)
    requires Rank(s.pc) <= 4 ==> s.sources != []
    ensures Finish(s).sources == StreamSlots.Announced(s)
    decreases Rank(s.pc)
  {
    if !s.pc.Idle? {
      FinishSources(S.SetSourceStep(s));
    }
  }

  /** Uninterrupted, set_source leaves the new source's streamers in the slots, and only those running. */
  lemma OnlyNewSourceRuns(s: S.State, audio: bool, video: bool)
    requires StreamSlots.SlotsRight(s) && s.pc.Idle? && !s.closed
    ensures var t := Finish(s.(pc := S.StopAudio(audio, video)));
            && t.sources == s.sources + [S.Legs(audio, video)]
            && StreamSlots.Holds(t, t.audio, S.AudioEnd) && StreamSlots.Holds(t, t.video, S.VideoEnd)
            && forall i :: 0 <= i < |t.streamers| ==> (t.streamers[i].running <==> t.audio == Some(i) || t.video == Some(i))
  {
    var begun := s.(pc := S.StopAudio(audio, video));
    var t := Finish(begun);
    FinishSlots(begun);
    FinishSources(begun);
    StreamSlots.SlotHolds(t, t.audio, S.AudioEnd);
    StreamSlots.SlotHolds(t, t.video, S.VideoEnd);
    StreamSlots.OnlySlotsRun(t);
  }

  /** Only the latest source has callbacks, and it has one, of the kind it should report. */
  ghost predicate SoleHook(t: S.State, audio: bool, video: bool) {
    && S.Valid(t) && t.pc.Idle?
    && (audio || video ==> exists i :: 0 <= i < |t.streamers| && t.streamers[i].onEnd ==
                             Some(S.Report(|t.sources| - 1, if audio then S.AudioEnd else S.VideoEnd)))
    && forall i :: 0 <= i < |t.streamers| && t.streamers[i].onEnd.Some? ==> t.streamers[i].source == |t.sources| - 1
  }

  lemma EmptiedNoneHooked(s: S.State, audio: bool, video: bool)
    requires S.Valid(s) && s.pc == S.StopAudio(audio, video)
    ensures var t := S.SetSourceStep(S.SetSourceStep(s));
            && S.Valid(t) && S.NobodyHooked(t) && t.sources != []
            && t.pc == (if audio then S.MakeAudio(video) else S.MakeVideo(false, video)) && Finish(s) == Finish(t)
  {
    S.ValidStep(s, S.SetStep);
    S.ValidStep(S.SetSourceStep(s), S.SetStep);
    FinishTwo(s);
  }

  lemma AudioHooked(s: S.State, video: bool)
    requires S.Valid(s) && S.NobodyHooked(s) && s.sources != [] && s.pc == S.MakeAudio(video)
    ensures var t := S.SetSourceStep(S.SetSourceStep(s));
            && S.Valid(t) && t.sources == s.sources && t.pc == S.MakeVideo(true, video) && Finish(s) == Finish(t)
            && |t.streamers| == |s.streamers| + 1
            && t.streamers[|s.streamers|].onEnd == Some(S.Report(|s.sources| - 1, S.AudioEnd))
            && forall i :: 0 <= i < |s.streamers| ==> t.streamers[i].onEnd == None
  {
    var s1 := S.SetSourceStep(s);
    S.ValidStep(s, S.SetStep);
    S.ValidStep(s1, S.SetStep);
    FinishTwo(s);
  }

  lemma VideoHooked(s: S.State, audio: bool, video: bool)
    requires S.Valid(s) && s.sources != [] && s.pc == S.MakeVideo(audio, video)
    ensures var t := Finish(s);
            && S.Valid(t) && t.pc.Idle? && t.sources == s.sources && s.streamers <= t.streamers
            && |t.streamers| == |s.streamers| + (if video then 1 else 0)
            && (video ==> t.streamers[|s.streamers|].onEnd
                          == if audio then None else Some(S.Report(|s.sources| - 1, S.VideoEnd)))
  {
    FinishLeg(s);
    S.ValidStep(s, S.SetStep);
    if video {
      S.ValidStep(S.SetSourceStep(s), S.SetStep);
    }
  }

  /** Uninterrupted, set_source leaves exactly the new source able to report. */
  lemma OnlyNewSourceHooked(s: S.State, audio: bool, video: bool)
    requires S.Valid(s) && s.pc.Idle?
    ensures SoleHook(Finish(s.(pc := S.StopAudio(audio, video))), audio, video)
  {
    var s0 := s.(pc := S.StopAudio(audio, video));
    EmptiedNoneHooked(s0, audio, video);
    var s2 := S.SetSourceStep(S.SetSourceStep(s0));
    if audio {
      AudioCase(s2, video);
    } else {
      VideoHooked(s2, false, video);
    }
  }

  lemma AudioCase(s: S.State, video: bool)
    requires S.Valid(s) && S.NobodyHooked(s) && s.sources != [] && s.pc == S.MakeAudio(video)
    ensures SoleHook(Finish(s), true, video)
  {
    AudioHooked(s, video);
    var s2 := S.SetSourceStep(S.SetSourceStep(s));
    VideoHooked(s2, true, video);
    OneHook(s2.streamers, Finish(s2), video);
  }

  lemma OneHook(before: seq<S.Streamer>, t: S.State, video: bool)
    requires S.Valid(t) && t.pc.Idle? && before != [] && before <= t.streamers
    requires |t.streamers| == |before| + if video then 1 else 0
    requires before[|before| - 1].onEnd == Some(S.Report(|t.sources| - 1, S.AudioEnd))
    requires forall i :: 0 <= i < |before| - 1 ==> before[i].onEnd == None
    requires video ==> t.streamers[|before|].onEnd == None
    ensures SoleHook(t, true, video)
  {
    var n := |before| - 1;
    assert t.streamers[n] == before[n];
    assert S.StreamerOk(t.sources, t.streamers[n]);
    assert forall i :: 0 <= i < n ==> t.streamers[i] == before[i];
  }
}
