/** What ensure_ffmpeg_flags of media/shell_source.rs guarantees of the command line it returns: the
    settings ffmpeg ends up with (the last one of a flag counts), and where the given words are. */
module ShellFlags {
  import opened Media
  import opened ShellSource

  /** The last time a flag is given, this is its value. */
  ghost predicate LastSet(xs: seq<string>, flag: string, value: string) {
    exists k :: SetAt(xs, flag, value, k)
  }

  ghost predicate SetAt(xs: seq<string>, flag: string, value: string, k: nat) {
    k + 1 < |xs| && xs[k] == flag && xs[k + 1] == value && forall j :: k < j < |xs| ==> xs[j] != flag
  }

  /** Words put in front do not matter, nor do others behind. */
  lemma LastSetWithin(front: seq<string>, xs: seq<string>, back: seq<string>, flag: string, value: string, k: nat)
    requires SetAt(xs, flag, value, k) && flag !in back
    ensures LastSet(front + xs + back, flag, value)
  {
    assert SetAt(front + xs + back, flag, value, |front| + k);
  }

  /** Neither of two names of a flag is given. */
  predicate Open(args: seq<string>, name: string, other: string) {
    name !in args && other !in args
  }

  function AudioCodec(args: seq<string>): seq<string> {
    if Open(args, "-c:a", "-acodec") then ["-c:a", "libopus"] else []
  }

  function VideoCodec(args: seq<string>): seq<string> {
    if Open(args, "-c:v", "-vcodec") then ["-c:v", "libvpx", "-deadline", "realtime"] else []
  }

  function Format(args: seq<string>, name: string): seq<string> {
    if "-f" in args then [] else ["-f", name]
  }

  lemma AudioParts(args: seq<string>, t: Track)
    requires t.audio
    ensures Ensured(args, t) == Front(args) + AudioCodec(args) + AUDIO_FLAGS + (Format(args, "ogg") + ["pipe:1"])
  {
    var front, codec, format := Front(args), AudioCodec(args), Format(args, "ogg");
    assert OutputFlags(args, t) == codec + AUDIO_FLAGS + format;
    Assoc(front, codec + AUDIO_FLAGS, format);
    Assoc(front, codec, AUDIO_FLAGS);
    Assoc(front + codec + AUDIO_FLAGS, format, ["pipe:1"]);
  }

  lemma VideoParts(args: seq<string>, t: Track)
    requires !t.audio && t.video
    ensures Ensured(args, t) == Front(args) + VideoCodec(args) + (Format(args, "ivf") + ["pipe:1"])
  {
    var front, codec, format := Front(args), VideoCodec(args), Format(args, "ivf");
    assert OutputFlags(args, t) == codec + format;
    Assoc(front, codec, format);
    Assoc(front + codec, format, ["pipe:1"]);
  }

  lemma AudioFixed()
    ensures SetAt(AUDIO_FLAGS, "-application", "audio", 0)
    ensures SetAt(AUDIO_FLAGS, "-frame_duration", "20", 2)
    ensures SetAt(AUDIO_FLAGS, "-page_duration", "20000", 4)
    ensures SetAt(AUDIO_FLAGS, "-mapping_family", "0", 6)
    ensures SetAt(AUDIO_FLAGS, "-ar", "48000", 8)
    ensures SetAt(AUDIO_FLAGS, "-ac", "2", 10)
  {
  }

  /** Only the words of the container stand behind. */
  lemma ContainerSet(args: seq<string>, front: seq<string>, name: string)
    requires name != "-f"
    ensures "-f" !in args ==> LastSet(front + (Format(args, name) + ["pipe:1"]), "-f", name)
  {
    if "-f" !in args {
      var xs: seq<string> := ["-f", name, "pipe:1"];
      assert Format(args, name) + ["pipe:1"] == xs;
      assert SetAt(xs, "-f", name, 0);
      LastSetWithin(front, xs, [], "-f", name, 0);
      EmptyEnds(front + xs);
    }
  }

  lemma NotBehind(args: seq<string>, name: string, flag: string)
    requires flag != "-f" && flag != name && flag != "pipe:1"
    ensures flag !in Format(args, name) + ["pipe:1"]
  {
  }

  lemma FixedSet(args: seq<string>, t: Track, flag: string, value: string, k: nat)
    requires t.audio && SetAt(AUDIO_FLAGS, flag, value, k) && flag != "-f" && flag != "pipe:1"
    requires flag != "ogg"
    ensures LastSet(Ensured(args, t), flag, value)
  {
    var back := Format(args, "ogg") + ["pipe:1"];
    AudioParts(args, t);
    NotBehind(args, "ogg", flag);
    LastSetWithin(Front(args) + AudioCodec(args), AUDIO_FLAGS, back, flag, value, k);
  }

  lemma AudioCodecSet(args: seq<string>, t: Track)
    requires t.audio && Open(args, "-c:a", "-acodec")
    ensures LastSet(Ensured(args, t), "-c:a", "libopus")
  {
    var codec, back: seq<string> := ["-c:a", "libopus"], Format(args, "ogg") + ["pipe:1"];
    AudioParts(args, t);
    assert SetAt(codec, "-c:a", "libopus", 0);
    Assoc(Front(args) + codec, AUDIO_FLAGS, back);
    LastSetWithin(Front(args), codec, AUDIO_FLAGS + back, "-c:a", "libopus", 0);
  }

  /** With audio, ffmpeg makes Opus at 48 kHz in stereo, 20 ms a frame and a page, whatever the line said of
      rate, channels and durations; in an Ogg container and by libopus unless the line names another. */
  lemma AudioSettings(args: seq<string>, t: Track)
    requires t.audio
    ensures var out := Ensured(args, t);
            && LastSet(out, "-ar", "48000") && LastSet(out, "-ac", "2") && LastSet(out, "-frame_duration", "20")
            && LastSet(out, "-page_duration", "20000") && LastSet(out, "-application", "audio")
            && LastSet(out, "-mapping_family", "0")
            && ("-f" !in args ==> LastSet(out, "-f", "ogg"))
            && (Open(args, "-c:a", "-acodec") ==> LastSet(out, "-c:a", "libopus"))
  {
    AudioFixed();
    FixedSet(args, t, "-application", "audio", 0);
    FixedSet(args, t, "-frame_duration", "20", 2);
    FixedSet(args, t, "-page_duration", "20000", 4);
    FixedSet(args, t, "-mapping_family", "0", 6);
    FixedSet(args, t, "-ar", "48000", 8);
    FixedSet(args, t, "-ac", "2", 10);
    AudioParts(args, t);
    ContainerSet(args, Front(args) + AudioCodec(args) + AUDIO_FLAGS, "ogg");
    if Open(args, "-c:a", "-acodec") {
      AudioCodecSet(args, t);
    }
  }

  /** With video alone it makes VP8 by libvpx in real time in an IVF container, unless the line names
      another encoder or container. */
  lemma VideoSettings(args: seq<string>, t: Track)
    requires !t.audio && t.video
    ensures var out := Ensured(args, t);
            && ("-f" !in args ==> LastSet(out, "-f", "ivf"))
            && (Open(args, "-c:v", "-vcodec") ==> LastSet(out, "-c:v", "libvpx") && LastSet(out, "-deadline", "realtime"))
  {
    var front, codec, back := Front(args), VideoCodec(args), Format(args, "ivf") + ["pipe:1"];
    VideoParts(args, t);
    ContainerSet(args, front + codec, "ivf");
    if Open(args, "-c:v", "-vcodec") {
      assert SetAt(codec, "-c:v", "libvpx", 0) && SetAt(codec, "-deadline", "realtime", 2);
      LastSetWithin(front, codec, back, "-c:v", "libvpx", 0);
      LastSetWithin(front, codec, back, "-deadline", "realtime", 2);
    }
  }

  // ----- Where the given words are -----

  ghost predicate Pair(xs: seq<string>, flag: string, value: string) {
    exists k :: 0 <= k && k + 1 < |xs| && xs[k] == flag && xs[k + 1] == value
  }

  /** How many of the three probe flags the line does not give. */
  function Unprobed(args: seq<string>): nat {
    (if "-analyzeduration" in args then 0 else 1) + (if "-probesize" in args then 0 else 1)
    + (if "-err_detect" in args then 0 else 1)
  }

  /** Exactly the probe flags the line does not give, with their values. */
  ghost predicate Probes(args: seq<string>, block: seq<string>) {
    && |block| == 2 * Unprobed(args)
    && ("-analyzeduration" !in args ==> Pair(block, "-analyzeduration", "0"))
    && ("-probesize" !in args ==> Pair(block, "-probesize", "64k"))
    && ("-err_detect" !in args ==> Pair(block, "-err_detect", "ignore_err"))
  }

  lemma InputFlagsProbe(args: seq<string>)
    ensures Probes(args, InputFlags(args))
  {
    var block, n := InputFlags(args), if "-analyzeduration" in args then 0 else 2;
    assert "-analyzeduration" !in args ==> block[0] == "-analyzeduration" && block[0 + 1] == "0";
    assert "-probesize" !in args ==> block[n] == "-probesize" && block[n + 1] == "64k";
    assert "-err_detect" !in args ==> block[|block| - 2] == "-err_detect" && block[|block| - 2 + 1] == "ignore_err";
  }

  lemma {:induction false} FirstInputAt(xs: seq<string>, ys: seq<string>)
    requires "-i" !in xs && ys != [] && ys[0] == "-i"
    ensures FirstInput(xs + ys) == Some(|xs|)
  {
    assert (xs + ys)[..|xs|] == xs;
    FirstInputUnique(xs + ys, |xs|);
  }

  lemma WithoutHead(xs: seq<string>)
    requires xs != [] && xs[0] == "-i"
    ensures Without(xs, "pipe:1") != [] && Without(xs, "pipe:1")[0] == "-i"
  {
  }

  /** The given words split at their first input, `pipe:1` taken out of both halves. */
  lemma FrontSplit(args: seq<string>, i: nat)
    requires FirstInput(args) == Some(i)
    ensures var before, from := Without(args[..i], "pipe:1"), Without(args[i..], "pipe:1");
            Without(args, "pipe:1") == before + from && Front(args) == before + InputFlags(args) + from
  {
    var a, b, block := args[..i], args[i..], InputFlags(args);
    assert args == a + b;
    WithoutAppend(a, b, "pipe:1");
    WithoutAppend(a + block, b, "pipe:1");
    WithoutAppend(a, block, "pipe:1");
    NoPipeInFlags(args);
  }

  lemma NoPipeInFlags(args: seq<string>)
    ensures Without(InputFlags(args), "pipe:1") == InputFlags(args)
    ensures "-i" !in InputFlags(args)
  {
    InputFlagsWords(args);
  }

  lemma HalvesSplit(args: seq<string>, i: nat)
    requires FirstInput(args) == Some(i)
    ensures "-i" !in Without(args[..i], "pipe:1")
    ensures Without(args[i..], "pipe:1") != [] && Without(args[i..], "pipe:1")[0] == "-i"
  {
    WithoutHead(args[i..]);
  }

  /** Without an input the words stay in front as they are, `pipe:1` apart; with one, all up to the first
      `-i`, then the missing probe flags, then that `-i` and the rest. */
  lemma WordsKept(args: seq<string>, t: Track)
    ensures var kept, out := Without(args, "pipe:1"), Ensured(args, t);
            match FirstInput(kept)
            case None => "-i" !in out && kept <= out
            case Some(i) =>
              var j := i + 2 * Unprobed(args);
              && FirstInput(out) == Some(j) && |out| >= j + |kept| - i
              && out[..i] == kept[..i] && Probes(args, out[i..j]) && out[j..j + |kept| - i] == kept[i..]
  {
    Assoc(Front(args), OutputFlags(args, t), ["pipe:1"]);
    match FirstInput(args)
    case None =>
      NoInputKept(args, t);
    case Some(i) =>
      var before, from := Without(args[..i], "pipe:1"), Without(args[i..], "pipe:1");
      FrontSplit(args, i);
      HalvesSplit(args, i);
      NoPipeInFlags(args);
      InputFlagsProbe(args);
      PlacedInput(before, InputFlags(args), from, OutputFlags(args, t) + ["pipe:1"]);
      Halves(before, from);
      Quarters(before, InputFlags(args), from, OutputFlags(args, t) + ["pipe:1"]);
  }

  lemma NoInputKept(args: seq<string>, t: Track)
    requires "-i" !in args
    ensures var kept, out := Without(args, "pipe:1"), Ensured(args, t);
            FirstInput(kept) == None && "-i" !in out && kept <= out
  {
    OutputFlagsWords(args, t);
    assert FirstInput(args) == None;
  }

  lemma PlacedInput(before: seq<string>, block: seq<string>, from: seq<string>, behind: seq<string>)
    requires "-i" !in before + block && from != [] && from[0] == "-i"
    ensures FirstInput(before + from) == Some(|before|)
    ensures FirstInput(before + block + from + behind) == Some(|before + block|)
  {
    FirstInputAt(before, from);
    FirstInputAt(before + block, from + behind);
    Assoc(before + block, from, behind);
  }

  lemma Halves(before: seq<string>, from: seq<string>)
    ensures (before + from)[..|before|] == before && (before + from)[|before|..] == from
  {
  }

  lemma Quarters(before: seq<string>, block: seq<string>, from: seq<string>, behind: seq<string>)
    ensures var out, j := before + block + from + behind, |before| + |block|;
            out[..|before|] == before && out[|before|..j] == block && out[j..j + |from|] == from
  {
  }

  lemma OutputFlagsLength(args: seq<string>, t: Track)
    ensures |OutputFlags(args, t)|
            == if t.audio then 12 + (if "-f" in args then 0 else 2) + (if Open(args, "-c:a", "-acodec") then 2 else 0)
               else if t.video then (if "-f" in args then 0 else 2) + (if Open(args, "-c:v", "-vcodec") then 4 else 0)
               else 0
  {
  }

  /** Nothing else is added. */
  lemma WordsAdded(args: seq<string>, t: Track)
    ensures |Ensured(args, t)| == |Without(args, "pipe:1")| + 1
              + (if "-i" in args then 2 * Unprobed(args) else 0)
              + (if t.audio then 12 + (if "-f" in args then 0 else 2) + (if Open(args, "-c:a", "-acodec") then 2 else 0)
                 else if t.video then (if "-f" in args then 0 else 2) + (if Open(args, "-c:v", "-vcodec") then 4 else 0)
                 else 0)
  {
    OutputFlagsLength(args, t);
    if FirstInput(args).Some? {
      FrontSplit(args, FirstInput(args).value);
      InputFlagsProbe(args);
    }
  }
}
