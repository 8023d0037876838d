/** The command-line transformations of media/shell_source.rs: the tokenizer, the injection of a
    seek, the injection of ffmpeg flags. Strings are the bytes of the command line, each widened
    to a character, as the program reads them. */
module ShellSource {
  import opened Media

  // ----- tokenize_shell -----

  function Finish(cur: string): seq<string> {
    if cur == "" then [] else [cur]
  }

  /** The tokens of the rest of a line, with `cur` begun and the quote state given. */
  function Scan(rest: string, cur: string, inQuote: bool): (out: seq<string>)
    ensures NonEmpty(out)
    decreases |rest|
  {
    if rest == "" then Finish(cur)
    else if rest[0] == '\\' && |rest| > 1 && (rest[1] == '"' || rest[1] == '\\') then
      Scan(rest[2..], cur + [rest[1]], inQuote)
    else if rest[0] == '"' then Scan(rest[1..], cur, !inQuote)
    else if !inQuote && (rest[0] == ' ' || rest[0] == '\t' || rest[0] == '\n') then
      Finish(cur) + Scan(rest[1..], "", inQuote)
    else Scan(rest[1..], cur + [rest[0]], inQuote)
  }

  method TokenizeShell(s: string) returns (out: seq<string>)
    ensures out == Scan(s, "", false)
    ensures NonEmpty(out)
  {
    out := [];
    var cur, inQuote, i := "", false, 0;
    while i < |s|
      invariant 0 <= i <= |s|
      invariant out + Scan(s[i..], cur, inQuote) == Scan(s, "", false)
    {
      var c := s[i];
      ghost var rest := s[i..];
      assert rest[0] == c && rest[1..] == s[i + 1..];
      if c == '\\' && i + 1 < |s| {
        var next := s[i + 1];
        assert rest[1] == next && rest[2..] == s[i + 2..];
        if next == '"' || next == '\\' {
          cur := cur + [next];
          i := i + 2;
          continue;
        }
      }
      if c == '"' {
        inQuote := !inQuote;
      } else if (c == ' ' || c == '\t' || c == '\n') && !inQuote {
        if cur != "" {
          assert out + (Finish(cur) + Scan(s[i + 1..], "", inQuote)) == (out + [cur]) + Scan(s[i + 1..], "", inQuote);
          out := out + [cur];
          cur := "";
        } else {
          assert out + (Finish(cur) + Scan(s[i + 1..], "", inQuote)) == out + Scan(s[i + 1..], "", inQuote);
        }
      } else {
        cur := cur + [c];
      }
      i := i + 1;
    }
    assert s[i..] == "";
    if cur != "" {
      out := out + [cur];
    }
  }

  // The printer: each argument quoted, quotes and backslashes escaped, a space between.

  function Escape(arg: string): string {
    if arg == "" then ""
    else (if arg[0] == '"' || arg[0] == '\\' then ['\\', arg[0]] else [arg[0]]) + Escape(arg[1..])
  }

  function Quote(arg: string): string {
    "\"" + Escape(arg) + "\""
  }

  function Print(args: seq<string>): string {
    if args == [] then ""
    else if |args| == 1 then Quote(args[0])
    else Quote(args[0]) + " " + Print(args[1..])
  }

  lemma ScanEscape(c: char, tail: string, cur: string)
    ensures Scan(Escape([c]) + tail, cur, true) == Scan(tail, cur + [c], true)
  {
    assert [c][1..] == "";
    if c == '"' || c == '\\' {
      assert Escape([c]) == ['\\', c];
      assert (Escape([c]) + tail)[2..] == tail;
    } else {
      assert Escape([c]) == [c];
      assert (Escape([c]) + tail)[1..] == tail;
    }
  }

  lemma EscapeCons(arg: string)
    requires arg != ""
    ensures Escape(arg) == Escape([arg[0]]) + Escape(arg[1..])
  {
    assert [arg[0]][1..] == "";
  }

  lemma {:induction false} ScanEscaped(arg: string, rest: string, cur: string)
    ensures Scan(Escape(arg) + "\"" + rest, cur, true) == Scan(rest, cur + arg, false)
    decreases |arg|
  {
    if arg == "" {
      assert ("" + "\"" + rest)[1..] == rest && cur + arg == cur;
    } else {
      var c, tail := arg[0], Escape(arg[1..]) + "\"" + rest;
      EscapeCons(arg);
      assert Escape(arg) + "\"" + rest == Escape([c]) + tail;
      ScanEscape(c, tail, cur);
      ScanEscaped(arg[1..], rest, cur + [c]);
      assert cur + [c] + arg[1..] == cur + arg;
    }
  }

  lemma ScanQuoted(arg: string, rest: string)
    ensures Scan(Quote(arg) + rest, "", false) == Scan(rest, arg, false)
  {
    var line := Quote(arg) + rest;
    assert line[1..] == Escape(arg) + "\"" + rest;
    ScanEscaped(arg, rest, "");
    assert "" + arg == arg;
  }

  /** Tokenizing what was printed gives the arguments back, but for empty ones, which a command
      line of this kind cannot carry: so all of them exactly when none is empty. */
  lemma {:induction false} TokenizePrinted(args: seq<string>)
    ensures Scan(Print(args), "", false) == NonEmptyOf(args)
    ensures Scan(Print(args), "", false) == args <==> NonEmpty(args)
  {
    if args != [] {
      TokenizePrinted(args[1..]);
      if |args| == 1 {
        assert Quote(args[0]) + "" == Quote(args[0]);
        ScanQuoted(args[0], "");
        assert args[1..] == [];
      } else {
        var rest := " " + Print(args[1..]);
        assert Quote(args[0]) + rest == Quote(args[0]) + " " + Print(args[1..]);
        ScanQuoted(args[0], rest);
        assert rest[1..] == Print(args[1..]);
      }
    }
  }

  /** Printing and reading again changes nothing in what was once read. */
  lemma TokenizeStable(s: string)
    ensures Scan(Print(Scan(s, "", false)), "", false) == Scan(s, "", false)
  {
    TokenizePrinted(Scan(s, "", false));
  }

  // ----- inject_seek -----

  /** A command line without its input-side `-ss` pairs, split at the first `-i` left. */
  datatype Parsed = NoInput(kept: seq<string>) | Input(before: seq<string>, from: seq<string>)

  function Prepend(xs: seq<string>, p: Parsed): Parsed {
    match p
    case NoInput(kept) => NoInput(xs + kept)
    case Input(before, from) => Input(xs + before, from)
  }

  function Parse(args: seq<string>): Parsed
    decreases |args|
  {
    if args == [] then NoInput([])
    else if args[0] == "-ss" && |args| > 1 then Parse(args[2..])
    else if args[0] == "-i" then Input([], args)
    else Prepend([args[0]], Parse(args[1..]))
  }

  function Seek(args: seq<string>, offset: string): seq<string> {
    match Parse(args)
    case NoInput(kept) => ["-ss", offset] + kept
    case Input(before, from) => before + ["-ss", offset] + from
  }

  lemma PrependPrepend(xs: seq<string>, ys: seq<string>, p: Parsed)
    ensures Prepend(xs, Prepend(ys, p)) == Prepend(xs + ys, p)
    ensures Prepend([], p) == p
  {
    match p
    case NoInput(kept) => assert xs + (ys + kept) == xs + ys + kept; assert [] + kept == kept;
    case Input(before, _) => assert xs + (ys + before) == xs + ys + before; assert [] + before == before;
  }

  /** `offset` is the offset in seconds, formatted to three decimals. */
  method InjectSeek(args: seq<string>, offset: string) returns (out: seq<string>)
    ensures out == Seek(args, offset)
  {
    var cleaned: seq<string> := [];
    var inputIdx: Option<nat> := None;
    var skipNext := false;
    PrependPrepend([], [], Parse(args));
    assert args[0..] == args;
    for i := 0 to |args|
      invariant skipNext ==> i < |args| && inputIdx == None
      invariant inputIdx == None ==> Parse(args) == Prepend(cleaned, Parse(args[if skipNext then i + 1 else i..]))
      invariant inputIdx.Some? ==> inputIdx.value <= |cleaned|
                                   && Parse(args) == Input(cleaned[..inputIdx.value], cleaned[inputIdx.value..] + args[i..])
    {
      if skipNext {
        skipNext := false;
        continue;
      }
      var a := args[i];
      ghost var rest := args[i..];
      assert rest[0] == a && rest[1..] == args[i + 1..];
      if a == "-ss" && inputIdx == None && i + 1 < |args| {
        assert rest[2..] == args[i + 2..];
        skipNext := true;
        continue;
      }
      if a == "-i" && inputIdx == None {
        inputIdx := Some(|cleaned|);
        assert cleaned + [] == cleaned;
      } else if inputIdx == None {
        PrependPrepend(cleaned, [a], Parse(rest[1..]));
      }
      ghost var was := cleaned;
      cleaned := cleaned + [a];
      if inputIdx.Some? {
        assert cleaned[..inputIdx.value] == was[..inputIdx.value];
        assert cleaned[inputIdx.value..] + args[i + 1..] == was[inputIdx.value..] + rest;
      }
    }
    if inputIdx.Some? {
      assert cleaned[inputIdx.value..] + args[|args|..] == cleaned[inputIdx.value..];
      out := cleaned[..inputIdx.value] + ["-ss", offset] + cleaned[inputIdx.value..];
    } else {
      assert args[|args|..] == [] && cleaned + [] == cleaned;
      out := ["-ss", offset] + cleaned;
    }
  }

  ghost predicate Plain(xs: seq<string>) {
    "-ss" !in xs && "-i" !in xs
  }

  /** What a parse leaves: in front of a surviving `-i` neither `-ss` nor `-i`, from it on the
      command line verbatim; without one, an `-ss` only as the very last word. */
  lemma {:induction false} ParseShape(args: seq<string>)
    ensures match Parse(args)
            case Input(before, from) =>
              Plain(before) && from != [] && from[0] == "-i" && |from| <= |args| && from == args[|args| - |from|..]
            case NoInput(kept) =>
              "-i" !in kept && forall i :: 0 <= i < |kept| && kept[i] == "-ss" ==> i == |kept| - 1
    decreases |args|
  {
    if args != [] {
      if args[0] == "-ss" && |args| > 1 {
        ParseShape(args[2..]);
      } else if args[0] != "-i" {
        ParseShape(args[1..]);
      }
    }
  }

  lemma {:induction false} ParseThrough(xs: seq<string>, rest: seq<string>)
    requires Plain(xs)
    ensures Parse(xs + rest) == Prepend(xs, Parse(rest))
  {
    if xs == [] {
      assert xs + rest == rest;
      PrependPrepend([], [], Parse(rest));
    } else {
      assert (xs + rest)[1..] == xs[1..] + rest;
      ParseThrough(xs[1..], rest);
      PrependPrepend([xs[0]], xs[1..], Parse(rest));
      assert [xs[0]] + xs[1..] == xs;
    }
  }

  lemma {:induction false} ParseKept(kept: seq<string>)
    requires "-i" !in kept && forall i :: 0 <= i < |kept| && kept[i] == "-ss" ==> i == |kept| - 1
    ensures Parse(kept) == NoInput(kept)
    decreases |kept|
  {
    if kept != [] {
      ParseKept(kept[1..]);
      assert [kept[0]] + kept[1..] == kept;
    }
  }

  /** Injecting a second seek replaces the first, for every command line. */
  lemma LastSeekWins(args: seq<string>, a: string, b: string)
    ensures Seek(Seek(args, a), b) == Seek(args, b)
  {
    ParseShape(args);
    match Parse(args)
    case NoInput(kept) =>
      assert (["-ss", a] + kept)[2..] == kept;
      ParseKept(kept);
    case Input(before, from) =>
      var mid := ["-ss", a] + from;
      assert before + ["-ss", a] + from == before + mid;
      ParseThrough(before, mid);
      assert mid[2..] == from;
      assert before + [] == before;
  }

  /** How many words at the end are `-ss`. */
  function TrailingSeeks(xs: seq<string>): (n: nat)
    ensures n <= |xs|
  {
    if xs == [] || xs[|xs| - 1] != "-ss" then 0 else 1 + TrailingSeeks(xs[..|xs| - 1])
  }

  lemma {:induction false} TrailingSeeksCons(x: string, ys: seq<string>)
    ensures TrailingSeeks([x] + ys) == TrailingSeeks(ys) + if x == "-ss" && TrailingSeeks(ys) == |ys| then 1 else 0
    decreases |ys|
  {
    var xs := [x] + ys;
    if ys == [] {
      assert xs[..0] == [];
    } else {
      assert xs[..|ys|] == [x] + ys[..|ys| - 1];
      TrailingSeeksCons(x, ys[..|ys| - 1]);
    }
  }

  /** An `-ss` and its value in front add none or both. */
  lemma SeekPairInFront(value: string, xs: seq<string>)
    ensures var n := TrailingSeeks(["-ss", value] + xs); n == TrailingSeeks(xs) || n == TrailingSeeks(xs) + 2
  {
    assert ["-ss", value] + xs == ["-ss"] + ([value] + xs);
    TrailingSeeksCons(value, xs);
    TrailingSeeksCons("-ss", [value] + xs);
  }

  /** Without a surviving input, the words kept end in an `-ss` exactly when an odd number of `-ss`
      stood at the end: in pairs they take each other for values. */
  lemma {:induction false} OddSeeksDangle(xs: seq<string>)
    requires Parse(xs).NoInput?
    ensures var kept := Parse(xs).kept;
            kept != [] && kept[|kept| - 1] == "-ss" <==> TrailingSeeks(xs) % 2 == 1
    decreases |xs|
  {
    if xs != [] {
      if xs[0] == "-ss" && |xs| > 1 {
        assert xs == ["-ss", xs[1]] + xs[2..];
        SeekPairInFront(xs[1], xs[2..]);
        OddSeeksDangle(xs[2..]);
      } else {
        var rest, kept := xs[1..], Parse(xs[1..]).kept;
        assert xs == [xs[0]] + rest;
        TrailingSeeksCons(xs[0], rest);
        OddSeeksDangle(rest);
        assert kept != [] ==> ([xs[0]] + kept)[|kept|] == kept[|kept| - 1];
      }
    }
  }

  // Which `-i` survives, read off the command line itself.

  /** An `-i` that is not the value of an `-ss`: an even number of `-ss` stands right before it. */
  predicate InputAt(args: seq<string>, p: nat) {
    p < |args| && args[p] == "-i" && TrailingSeeks(args[..p]) % 2 == 0
  }

  /** The first one from a position on. */
  function Survivor(args: seq<string>, from: nat): (r: Option<nat>)
    requires from <= |args|
    ensures r.Some? ==> from <= r.value && InputAt(args, r.value) && forall q :: from <= q < r.value ==> !InputAt(args, q)
    ensures r.None? ==> forall q :: from <= q ==> !InputAt(args, q)
    decreases |args| - from
  {
    if from == |args| then None
    else if InputAt(args, from) then Some(from)
    else Survivor(args, from + 1)
  }

  /** The words without `-ss` pairs. */
  function Stripped(args: seq<string>): seq<string>
    decreases |args|
  {
    if args == [] then []
    else if args[0] == "-ss" && |args| > 1 then Stripped(args[2..])
    else [args[0]] + Stripped(args[1..])
  }

  /** From words without `-ss` nothing is taken; of the first `-ss` and its value nothing stays, whatever
      the value is, and so on behind them; an `-ss` that ends the line is no pair and stays. */
  lemma {:induction false} StrippedPairs(xs: seq<string>, value: string, rest: seq<string>)
    requires "-ss" !in xs
    ensures Stripped(xs) == xs && Stripped(xs + ["-ss"]) == xs + ["-ss"]
    ensures Stripped(xs + (["-ss", value] + rest)) == xs + Stripped(rest)
    decreases |xs|
  {
    var pair := ["-ss", value] + rest;
    if xs == [] {
      EmptyEnds(pair);
      EmptyEnds(Stripped(rest));
      assert pair[2..] == rest && ["-ss"][1..] == [];
    } else {
      assert (xs + pair)[1..] == xs[1..] + pair && (xs + ["-ss"])[1..] == xs[1..] + ["-ss"];
      StrippedPairs(xs[1..], value, rest);
      Assoc([xs[0]], xs[1..], Stripped(rest));
      Assoc([xs[0]], xs[1..], ["-ss"]);
      assert [xs[0]] + xs[1..] == xs;
    }
  }

  /** An `-ss` with its value in front moves the survivors up by two. */
  lemma SurvivorsAfterPair(args: seq<string>, p: nat)
    requires |args| > 1 && args[0] == "-ss"
    ensures !InputAt(args, 0) && !InputAt(args, 1)
    ensures p >= 2 ==> (InputAt(args, p) <==> InputAt(args[2..], p - 2))
  {
    assert args[..1] == ["-ss"] && ["-ss"][..0] == [];
    if 2 <= p < |args| {
      assert args[..p] == ["-ss", args[1]] + args[2..][..p - 2];
      SeekPairInFront(args[1], args[2..][..p - 2]);
    }
  }

  /** Any other word in front moves them up by one. */
  lemma SurvivorsAfterWord(args: seq<string>, p: nat)
    requires args != [] && args[0] != "-ss"
    ensures InputAt(args, 0) <==> args[0] == "-i"
    ensures p >= 1 ==> (InputAt(args, p) <==> InputAt(args[1..], p - 1))
  {
    assert args[..0] == [];
    if 1 <= p < |args| {
      assert args[..p] == [args[0]] + args[1..][..p - 1];
      TrailingSeeksCons(args[0], args[1..][..p - 1]);
    }
  }

  lemma {:induction false} ParseAtSurvivor(args: seq<string>, p: nat)
    requires InputAt(args, p) && forall q :: 0 <= q < p ==> !InputAt(args, q)
    ensures Parse(args) == Input(Stripped(args[..p]), args[p..])
    decreases |args|
  {
    if args[0] == "-ss" && |args| > 1 {
      SurvivorsAfterPair(args, p);
      forall q | 0 <= q < p - 2
        ensures !InputAt(args[2..], q)
      {
        SurvivorsAfterPair(args, q + 2);
      }
      ParseAtSurvivor(args[2..], p - 2);
      assert args[..p][2..] == args[2..][..p - 2];
    } else if args[0] != "-i" {
      SurvivorsAfterWord(args, p);
      forall q | 0 <= q < p - 1
        ensures !InputAt(args[1..], q)
      {
        SurvivorsAfterWord(args, q + 1);
      }
      ParseAtSurvivor(args[1..], p - 1);
      assert args[..p][1..] == args[1..][..p - 1];
    } else {
      SurvivorsAfterWord(args, 0);
    }
  }

  lemma {:induction false} ParseNoSurvivor(args: seq<string>)
    requires forall q :: 0 <= q ==> !InputAt(args, q)
    ensures Parse(args) == NoInput(Stripped(args))
    decreases |args|
  {
    if args != [] {
      if args[0] == "-ss" && |args| > 1 {
        forall q | 0 <= q
          ensures !InputAt(args[2..], q)
        {
          SurvivorsAfterPair(args, q + 2);
        }
        ParseNoSurvivor(args[2..]);
      } else if args[0] == "-ss" {
        assert args[1..] == [];
      } else {
        SurvivorsAfterWord(args, 0);
        forall q | 0 <= q
          ensures !InputAt(args[1..], q)
        {
          SurvivorsAfterWord(args, q + 1);
        }
        ParseNoSurvivor(args[1..]);
      }
    }
  }

  /** What the rewrite keeps is decided by the first `-i` with an even number of `-ss` before it. */
  lemma ParseBySurvivor(args: seq<string>)
    ensures Parse(args) == match Survivor(args, 0)
                           case Some(p) => Input(Stripped(args[..p]), args[p..])
                           case None => NoInput(Stripped(args))
  {
    match Survivor(args, 0)
    case Some(p) => ParseAtSurvivor(args, p);
    case None => ParseNoSurvivor(args);
  }

  /** With a surviving `-i` the result is: the words before it without `-ss` pairs, among them no
      `-ss` and no `-i`; exactly one `-ss` pair; then everything from that `-i` on as it was. Without
      one the pair comes first, then all words without `-ss` pairs. */
  lemma SeekStructure(args: seq<string>, offset: string)
    ensures match Survivor(args, 0)
            case Some(p) => Seek(args, offset) == Stripped(args[..p]) + ["-ss", offset] + args[p..] && Plain(Stripped(args[..p]))
            case None => Seek(args, offset) == ["-ss", offset] + Stripped(args)
  {
    ParseBySurvivor(args);
    ParseShape(args);
  }

  // ----- ensure_ffmpeg_flags -----

  datatype Track = Track(audio: bool, video: bool)

  function FirstInput(args: seq<string>): (r: Option<nat>)
    ensures r.Some? ==> r.value < |args| && args[r.value] == "-i" && "-i" !in args[..r.value]
    ensures r.Some? <==> "-i" in args
  {
    if args == [] then None
    else if args[0] == "-i" then Some(0)
    else match FirstInput(args[1..])
      case None => None
      case Some(i) =>
        assert args[..i + 1] == [args[0]] + args[1..][..i];
        Some(i + 1)
  }

  function InputFlags(args: seq<string>): seq<string> {
    (if "-analyzeduration" in args then [] else ["-analyzeduration", "0"])
    + (if "-probesize" in args then [] else ["-probesize", "64k"])
    + (if "-err_detect" in args then [] else ["-err_detect", "ignore_err"])
  }

  const AUDIO_FLAGS: seq<string> :=
    ["-application", "audio", "-frame_duration", "20", "-page_duration", "20000",
     "-mapping_family", "0", "-ar", "48000", "-ac", "2"]

  function OutputFlags(args: seq<string>, t: Track): seq<string> {
    if t.audio then
      (if "-c:a" in args || "-acodec" in args then [] else ["-c:a", "libopus"])
      + AUDIO_FLAGS
      + (if "-f" in args then [] else ["-f", "ogg"])
    else if t.video then
      (if "-c:v" in args || "-vcodec" in args then [] else ["-c:v", "libvpx", "-deadline", "realtime"])
      + (if "-f" in args then [] else ["-f", "ivf"])
    else []
  }

  function Without(xs: seq<string>, x: string): (r: seq<string>)
    ensures forall y :: y in r <==> y in xs && y != x
    ensures x !in xs ==> r == xs
  {
    if xs == [] then []
    else (if xs[0] == x then [] else [xs[0]]) + Without(xs[1..], x)
  }

  function WithInputFlags(args: seq<string>): seq<string> {
    match FirstInput(args)
    case None => args
    case Some(i) => args[..i] + InputFlags(args) + args[i..]
  }

  /** The words in front of the output flags. */
  function Front(args: seq<string>): seq<string> {
    Without(WithInputFlags(args), "pipe:1")
  }

  function Ensured(args: seq<string>, t: Track): seq<string> {
    Front(args) + OutputFlags(args, t) + ["pipe:1"]
  }

  /** What the loop over the arguments finds out. */
  datatype Found = Found(analyzeduration: bool, probesize: bool, errDetect: bool,
                         ca: bool, cv: bool, f: bool, pipe: bool, inputIdx: Option<nat>)

  method FindFlags(args: seq<string>) returns (found: Found)
    ensures found.analyzeduration == ("-analyzeduration" in args) && found.probesize == ("-probesize" in args)
    ensures found.errDetect == ("-err_detect" in args) && found.f == ("-f" in args)
    ensures found.ca == ("-c:a" in args || "-acodec" in args) && found.cv == ("-c:v" in args || "-vcodec" in args)
    ensures found.pipe == ("pipe:1" in args || "-" in args)
    ensures found.inputIdx == FirstInput(args)
  {
    var hasAnalyzeduration, hasProbesize, hasErrDetect := false, false, false;
    var hasCa, hasCv, hasF, hasPipe := false, false, false, false;
    var inputIdx: Option<nat> := None;
    for i := 0 to |args|
      invariant hasAnalyzeduration == ("-analyzeduration" in args[..i])
      invariant hasProbesize == ("-probesize" in args[..i])
      invariant hasErrDetect == ("-err_detect" in args[..i])
      invariant hasCa == ("-c:a" in args[..i] || "-acodec" in args[..i])
      invariant hasCv == ("-c:v" in args[..i] || "-vcodec" in args[..i])
      invariant hasF == ("-f" in args[..i])
      invariant hasPipe == ("pipe:1" in args[..i] || "-" in args[..i])
      invariant inputIdx == None ==> "-i" !in args[..i]
      invariant inputIdx.Some? ==> inputIdx.value < i && inputIdx == FirstInput(args)
    {
      var a := args[i];
      assert args[..i + 1] == args[..i] + [a];
      if a == "-analyzeduration" {
        hasAnalyzeduration := true;
      }
      if a == "-probesize" {
        hasProbesize := true;
      }
      if a == "-err_detect" {
        hasErrDetect := true;
      }
      if a == "-c:a" || a == "-acodec" {
        hasCa := true;
      }
      if a == "-c:v" || a == "-vcodec" {
        hasCv := true;
      }
      if a == "-f" {
        hasF := true;
      }
      if a == "pipe:1" || a == "-" {
        hasPipe := true;
      }
      if a == "-i" && inputIdx == None {
        FirstInputUnique(args, i);
        inputIdx := Some(i);
      }
    }
    assert args[..|args|] == args;
    found := Found(hasAnalyzeduration, hasProbesize, hasErrDetect, hasCa, hasCv, hasF, hasPipe, inputIdx);
  }

  method EnsureFfmpegFlags(args: seq<string>, t: Track) returns (out: seq<string>)
    ensures out == Ensured(args, t)
  {
    var found := FindFlags(args);

    var inputInject: seq<string> := [];
    if found.inputIdx.Some? {
      if !found.analyzeduration {
        inputInject := inputInject + ["-analyzeduration", "0"];
      }
      if !found.probesize {
        inputInject := inputInject + ["-probesize", "64k"];
      }
      if !found.errDetect {
        inputInject := inputInject + ["-err_detect", "ignore_err"];
      }
      assert inputInject == InputFlags(args);
    }

    var outputInject := OutputInject(args, t, found);

    if found.inputIdx.Some? {
      var idx := found.inputIdx.value;
      out := args[..idx] + inputInject + args[idx..];
    } else {
      out := args;
    }
    if found.pipe {
      out := Without(out, "pipe:1");
    } else {
      NoPipeAdded(args);
    }
    out := out + outputInject;
    out := out + ["pipe:1"];
  }

  method OutputInject(args: seq<string>, t: Track, found: Found) returns (outputInject: seq<string>)
    requires found.f == ("-f" in args)
    requires found.ca == ("-c:a" in args || "-acodec" in args) && found.cv == ("-c:v" in args || "-vcodec" in args)
    ensures outputInject == OutputFlags(args, t)
  {
    outputInject := [];
    if t.audio {
      if !found.ca {
        outputInject := outputInject + ["-c:a", "libopus"];
      }
      outputInject := outputInject + AUDIO_FLAGS;
      if !found.f {
        outputInject := outputInject + ["-f", "ogg"];
      }
    } else if t.video {
      if !found.cv {
        outputInject := outputInject + ["-c:v", "libvpx", "-deadline", "realtime"];
      }
      if !found.f {
        outputInject := outputInject + ["-f", "ivf"];
      }
    }
  }

  lemma {:induction false} FirstInputUnique(args: seq<string>, i: nat)
    requires i < |args| && args[i] == "-i" && "-i" !in args[..i]
    ensures FirstInput(args) == Some(i)
  {
    if i > 0 {
      assert args[..i][0] == args[0] && args[..i][1..] == args[1..][..i - 1];
      FirstInputUnique(args[1..], i - 1);
    }
  }

  lemma InputFlagsWords(args: seq<string>)
    ensures forall x :: x in InputFlags(args) ==> x != "pipe:1" && x != "-i" && x != "-ss"
  {
  }

  lemma OutputFlagsWords(args: seq<string>, t: Track)
    ensures forall x :: x in OutputFlags(args, t) ==> x != "pipe:1" && x != "-i" && x != "-ss"
  {
  }

  /** The words after adding the input flags. */
  lemma WithInputFlagsWords(args: seq<string>)
    ensures forall x :: x in WithInputFlags(args) <==> x in args || ("-i" in args && x in InputFlags(args))
  {
    if FirstInput(args).Some? {
      var i := FirstInput(args).value;
      assert args == args[..i] + args[i..];
    }
  }

  lemma NoPipeAdded(args: seq<string>)
    requires "pipe:1" !in args
    ensures Without(WithInputFlags(args), "pipe:1") == WithInputFlags(args)
  {
    WithInputFlagsWords(args);
    InputFlagsWords(args);
  }

  /** The output goes to `pipe:1`, named once and last. */
  lemma {:induction false} PipeOnceAndLast(args: seq<string>, t: Track)
    ensures var out := Ensured(args, t);
            out[|out| - 1] == "pipe:1" && "pipe:1" !in out[..|out| - 1]
  {
    OutputFlagsWords(args, t);
    var out := Ensured(args, t);
    assert out[..|out| - 1] == Front(args) + OutputFlags(args, t);
  }

  lemma OutputFlagsHave(args: seq<string>, t: Track)
    ensures t.video && !t.audio ==>
              ("-c:v" in args || "-vcodec" in args || "-c:v" in OutputFlags(args, t)) && ("-f" in args || "-f" in OutputFlags(args, t))
  {
    var flags := OutputFlags(args, t);
    if t.video && !t.audio {
      assert "-c:v" in args || "-vcodec" in args || flags[0] == "-c:v";
      assert "-f" in args || flags[|flags| - 2] == "-f";
    }
  }

  lemma InputFlagsHave(args: seq<string>)
    ensures "-analyzeduration" in args || "-analyzeduration" in InputFlags(args)
    ensures "-probesize" in args || "-probesize" in InputFlags(args)
    ensures "-err_detect" in args || "-err_detect" in InputFlags(args)
  {
    var flags := InputFlags(args);
    assert "-analyzeduration" in args || flags[0] == "-analyzeduration";
    assert "-err_detect" in args || flags[|flags| - 2] == "-err_detect";
    assert "-probesize" in args || flags[if "-analyzeduration" in args then 0 else 2] == "-probesize";
  }

  lemma KeepsWord(args: seq<string>, t: Track, x: string)
    requires x != "pipe:1"
    ensures x in args || x in OutputFlags(args, t) || ("-i" in args && x in InputFlags(args)) <==> x in Ensured(args, t)
  {
    WithInputFlagsWords(args);
  }

  lemma OutputAsksNoMore(args: seq<string>, t: Track)
    requires !t.audio
    ensures OutputFlags(Ensured(args, t), t) == []
  {
    OutputFlagsHave(args, t);
    KeepsWord(args, t, "-c:v");
    KeepsWord(args, t, "-vcodec");
    KeepsWord(args, t, "-f");
  }

  lemma InputAsksNoMore(args: seq<string>, t: Track)
    ensures "-i" in Ensured(args, t) ==> InputFlags(Ensured(args, t)) == []
  {
    InputFlagsHave(args);
    InputFlagsWords(args);
    OutputFlagsWords(args, t);
    KeepsWord(args, t, "-i");
    KeepsWord(args, t, "-analyzeduration");
    KeepsWord(args, t, "-probesize");
    KeepsWord(args, t, "-err_detect");
  }

  lemma {:induction false} WithoutAppend(xs: seq<string>, ys: seq<string>, x: string)
    ensures Without(xs + ys, x) == Without(xs, x) + Without(ys, x)
  {
    if xs == [] {
      assert xs + ys == ys;
    } else {
      assert (xs + ys)[0] == xs[0] && (xs + ys)[1..] == xs[1..] + ys;
      WithoutAppend(xs[1..], ys, x);
      var head := if xs[0] == x then [] else [xs[0]];
      assert head + (Without(xs[1..], x) + Without(ys, x)) == head + Without(xs[1..], x) + Without(ys, x);
    }
  }

  lemma WithoutPipe(args: seq<string>, t: Track)
    ensures Without(Ensured(args, t), "pipe:1") == Front(args) + OutputFlags(args, t)
  {
    var body := Front(args) + OutputFlags(args, t);
    OutputFlagsWords(args, t);
    WithoutAppend(body, ["pipe:1"], "pipe:1");
    assert Without(["pipe:1"], "pipe:1") == [];
    assert body + [] == body;
  }

  lemma WithoutShorter(xs: seq<string>, ys: seq<string>, zs: seq<string>, x: string)
    ensures |Without(xs + ys + zs, x)| >= |Without(xs + zs, x)|
  {
    WithoutAppend(xs + ys, zs, x);
    WithoutAppend(xs, ys, x);
    WithoutAppend(xs, zs, x);
  }

  lemma AudioFlagsLong(args: seq<string>, t: Track)
    requires t.audio
    ensures |OutputFlags(args, t)| >= 12
  {
  }

  lemma {:induction false} InputFlagsAdd(args: seq<string>, x: string)
    ensures |Without(WithInputFlags(args), x)| >= |Without(args, x)|
  {
    match FirstInput(args)
    case None =>
    case Some(i) =>
      WithoutShorter(args[..i], InputFlags(args), args[i..], x);
      assert args[..i] + args[i..] == args;
  }

  lemma FrontShrinksByOne(args: seq<string>, t: Track)
    ensures |Front(Ensured(args, t))| + 1 >= |Ensured(args, t)|
  {
    WithoutPipe(args, t);
    InputFlagsAdd(Ensured(args, t), "pipe:1");
  }

  lemma {:induction false} EnsureAudioGrows(args: seq<string>, t: Track)
    requires t.audio
    ensures |Ensured(Ensured(args, t), t)| > |Ensured(args, t)|
  {
    FrontShrinksByOne(args, t);
    AudioFlagsLong(Ensured(args, t), t);
  }

  lemma EnsureStable(args: seq<string>, t: Track)
    requires !t.audio
    ensures Ensured(Ensured(args, t), t) == Ensured(args, t)
  {
    var out := Ensured(args, t);
    OutputAsksNoMore(args, t);
    InputAsksNoMore(args, t);
    FullyFlagged(out);
    WithoutPipe(args, t);
    var body := Front(out);
    assert body == Front(args) + OutputFlags(args, t);
    assert body + [] == body;
  }

  lemma FullyFlagged(args: seq<string>)
    requires "-i" in args ==> InputFlags(args) == []
    ensures WithInputFlags(args) == args
  {
    match FirstInput(args)
    case None =>
    case Some(i) => assert args[..i] + [] + args[i..] == args;
  }

  /** Filling in the flags a second time changes nothing exactly when the track has no audio:
      the audio output flags are appended every time. */
  lemma EnsureIdempotentIff(args: seq<string>, t: Track)
    ensures Ensured(Ensured(args, t), t) == Ensured(args, t) <==> !t.audio
  {
    if t.audio {
      EnsureAudioGrows(args, t);
    } else {
      EnsureStable(args, t);
    }
  }

  // ----- A seek injected into an ensured command line -----

  /** Words kept by a parse that leaves no `-ss` waiting for a value. */
  ghost predicate Settled(p: Parsed) {
    p.NoInput? ==> p.kept == [] || p.kept[|p.kept| - 1] != "-ss"
  }

  function AppendTo(p: Parsed, tail: seq<string>): Parsed {
    match p
    case NoInput(kept) => NoInput(kept + tail)
    case Input(before, from) => Input(before, from + tail)
  }

  lemma PrependSettled(x: string, p: Parsed, tail: seq<string>)
    ensures Settled(Prepend([x], p)) ==> Settled(p)
    ensures AppendTo(Prepend([x], p), tail) == Prepend([x], AppendTo(p, tail))
  {
    if p.NoInput? {
      assert p.kept != [] ==> ([x] + p.kept)[|p.kept|] == p.kept[|p.kept| - 1];
      assert [x] + p.kept + tail == [x] + (p.kept + tail);
    }
  }

  lemma {:induction false} ParseAppend(xs: seq<string>, tail: seq<string>)
    requires Plain(tail) && Settled(Parse(xs))
    ensures Parse(xs + tail) == AppendTo(Parse(xs), tail)
    decreases |xs|
  {
    if xs == [] {
      assert xs + tail == tail && [] + tail == tail;
      ParseKept(tail);
    } else {
      assert (xs + tail)[1..] == xs[1..] + tail;
      if xs[0] == "-ss" && |xs| > 1 {
        assert (xs + tail)[2..] == xs[2..] + tail;
        ParseAppend(xs[2..], tail);
      } else if xs[0] != "-i" {
        LoneSeekDangles(xs);
        PrependSettled(xs[0], Parse(xs[1..]), tail);
        ParseAppend(xs[1..], tail);
      }
    }
  }

  lemma LoneSeekDangles(xs: seq<string>)
    requires xs != [] && (|xs| == 1 || xs[0] != "-ss")
    ensures xs[0] == "-ss" ==> Parse(xs) == NoInput(["-ss"])
  {
    assert |xs| == 1 ==> xs[1..] == [];
  }

  lemma {:induction false} ParseDangling(xs: seq<string>, tail: seq<string>)
    requires Plain(tail) && tail != []
    requires Parse(xs).NoInput? && Parse(xs).kept != [] && Parse(xs).kept[|Parse(xs).kept| - 1] == "-ss"
    ensures Parse(xs + tail).NoInput? && |Parse(xs + tail).kept| == |Parse(xs).kept| + |tail| - 2
    decreases |xs|
  {
    assert (xs + tail)[1..] == xs[1..] + tail;
    if xs[0] == "-ss" && |xs| > 1 {
      assert (xs + tail)[2..] == xs[2..] + tail;
      ParseDangling(xs[2..], tail);
    } else if xs[0] == "-ss" {
      assert xs[1..] == [] && Parse(xs).kept == ["-ss"];
      assert (xs + tail)[2..] == tail[1..];
      assert forall x :: x in tail[1..] ==> x in tail;
      ParseKept(tail[1..]);
    } else {
      var p := Parse(xs[1..]);
      assert Parse(xs).kept == [xs[0]] + p.kept;
      assert p.kept != [];
      assert Parse(xs).kept[|p.kept|] == p.kept[|p.kept| - 1];
      ParseDangling(xs[1..], tail);
    }
  }

  /** A seek leaves the output side alone: with a surviving input among the words in front of the
      output flags always, and everything from that input on is verbatim; without one exactly when an
      even number of `-ss` stands at the end of those words. An odd one has no value and takes the
      first flag for it. */
  lemma SeekKeepsOutput(args: seq<string>, t: Track, offset: string)
    ensures var front, tail := Front(args), OutputFlags(args, t) + ["pipe:1"];
            var sought := Seek(Ensured(args, t), offset);
            match Survivor(front, 0)
            case Some(p) => sought == Stripped(front[..p]) + ["-ss", offset] + (front[p..] + tail)
            case None => sought == ["-ss", offset] + (Stripped(front) + tail) <==> TrailingSeeks(front) % 2 == 0
  {
    var front, tail := Front(args), OutputFlags(args, t) + ["pipe:1"];
    PlainTail(args, t);
    assert Ensured(args, t) == front + tail;
    SeekBefore(front, tail, offset);
  }

  lemma PlainTail(args: seq<string>, t: Track)
    ensures Plain(OutputFlags(args, t) + ["pipe:1"])
  {
    OutputFlagsWords(args, t);
  }

  /** The same for any words in front of any words that are neither `-ss` nor `-i`. */
  lemma SeekBefore(front: seq<string>, tail: seq<string>, offset: string)
    requires Plain(tail) && tail != []
    ensures var sought := Seek(front + tail, offset);
            match Survivor(front, 0)
            case Some(p) => sought == Stripped(front[..p]) + ["-ss", offset] + (front[p..] + tail)
            case None => sought == ["-ss", offset] + (Stripped(front) + tail) <==> TrailingSeeks(front) % 2 == 0
  {
    ParseBySurvivor(front);
    var p := Parse(front);
    if p.NoInput? {
      OddSeeksDangle(front);
    }
    if p.NoInput? && p.kept != [] && p.kept[|p.kept| - 1] == "-ss" {
      ParseDangling(front, tail);
    } else {
      ParseAppend(front, tail);
    }
  }

  lemma SeekTakesFirst(tail: seq<string>, offset: string)
    requires Plain(tail) && tail != []
    ensures Seek(["-ss"] + tail, offset) == ["-ss", offset] + tail[1..]
  {
    assert (["-ss"] + tail)[2..] == tail[1..];
    ParseKept(tail[1..]);
  }

  lemma BareCommand(args: seq<string>, t: Track)
    requires "-i" !in args && "pipe:1" !in args
    ensures Front(args) == args && Ensured(args, t) == args + (OutputFlags(args, t) + ["pipe:1"])
  {
    assert Front(args) == args;
  }

  /** A command line on which it goes wrong, `ffmpeg -ss` with the program's name off: the codec flag
      is lost, its value left behind. */
  lemma SeekSwallowsCodec(offset: string)
    ensures TrailingSeeks(Front(["-ss"])) == 1
    ensures var t := Track(true, false);
            var tail := OutputFlags(["-ss"], t) + ["pipe:1"];
            tail[..2] == ["-c:a", "libopus"] && Seek(Ensured(["-ss"], t), offset) == ["-ss", offset] + tail[1..]
  {
    var t := Track(true, false);
    BareCommand(["-ss"], t);
    PlainTail(["-ss"], t);
    SeekTakesFirst(OutputFlags(["-ss"], t) + ["pipe:1"], offset);
  }
}
