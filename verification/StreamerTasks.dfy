/** The Streamer object of media/streamer.rs: its fields, the methods callers use, and the two
    tasks it spawns, with the program's loops.

    The object is `Valid` when it is where some possible run of module Streamer leads; `trace` is
    that run. A caller's method is one step of a run, Stop two. A task's loop goes statement by
    statement, each one step; in between the clock, the callers and the other task move as the
    `turns` given to it say, any number of moves of any kind. So what is proved of runs holds of the
    object at every statement. `Plays` says where a task's turns lead, without the loops. */
module StreamerTasks {
  import opened Media
  import S = Streamer
  import opened StreamerSafety
  import opened StreamerRuns
  import opened StreamerCallers
  import opened StreamerEnding

  /** What happens before a task's next statement: moves of the others; and what the task then finds
      where it asks the outside: whether the stall timeout strikes, how send_rtp_bytes ends, which leg
      of the join comes first. */
  datatype Turn = Turn(others: seq<S.Event>, stalls: bool, outcome: Option<Error>, receiveFirst: bool)

  datatype Party = OnReader | OnPacer | OnCaller

  predicate Belongs(e: S.Event, who: Party) {
    match who
    case OnReader => e.Reader? || e.ReadStalls?
    case OnPacer => e.Pacer? || e.Sent? || e.SleepEnds? || e.Receive?
    case OnCaller => false
  }

  /** Moves in a row, but for those of `who` and those not possible when their time comes. */
  function Around(s: S.State, es: seq<S.Event>, who: Party): S.State {
    if es == [] then s
    else
      var t, e := Around(s, es[..|es| - 1], who), es[|es| - 1];
      if Belongs(e, who) || !S.Enabled(t, e) then t else S.Apply(t, e)
  }

  /** The task's own next step, if its statement can complete. */
  function OwnEvent(s: S.State, turn: Turn, who: Party): (e: Option<S.Event>)
    ensures e.Some? ==> S.Enabled(s, e.value)
  {
    match who
    case OnReader =>
      if s.reader.pc.RRead? && turn.stalls then Some(S.ReadStalls)
      else if S.ReaderEnabled(s) then Some(S.Reader)
      else None
    case OnPacer =>
      if s.pacer.pc.PSending? then Some(S.Sent(turn.outcome))
      else if S.Enabled(s, S.Receive) && (turn.receiveFirst || !S.Enabled(s, S.SleepEnds)) then Some(S.Receive)
      else if S.Enabled(s, S.SleepEnds) then Some(S.SleepEnds)
      else if S.PacerEnabled(s) then Some(S.Pacer)
      else None
    case OnCaller => None
  }

  /** A task with its turns, from some state on. */
  datatype Script = Script(who: Party, start: S.State, turns: seq<Turn>)

  /** Where the first k turns lead: the others move, then the task makes one step if it can. */
  function Plays(w: Script, k: nat): S.State
    requires k <= |w.turns|
  {
    if k == 0 then w.start
    else
      var turn := w.turns[k - 1];
      var s := Around(Plays(w, k - 1), turn.others, w.who);
      match OwnEvent(s, turn, w.who)
      case Some(e) => S.Apply(s, e)
      case None => s
  }

  lemma {:induction false} AroundKeeps(s: S.State, es: seq<S.Event>, who: Party)
    ensures who == OnReader ==> Around(s, es, who).reader == s.reader
    ensures who == OnPacer ==> Around(s, es, who).pacer == s.pacer
  {
    if es != [] {
      AroundKeeps(s, es[..|es| - 1], who);
      var t, e := Around(s, es[..|es| - 1], who), es[|es| - 1];
      if !Belongs(e, who) && S.Enabled(t, e) {
        OthersKeep(t, e, who);
      }
    }
  }

  lemma {:induction false} SilentAround(s: S.State, es: seq<S.Event>)
    ensures Silent(s) && NoNewCallback(es) ==> Silent(Around(s, es, OnCaller))
  {
    if es != [] && Silent(s) && NoNewCallback(es) {
      var t, e := Around(s, es[..|es| - 1], OnCaller), es[|es| - 1];
      SilentAround(s, es[..|es| - 1]);
      if S.Enabled(t, e) {
        SilentStep(t, e);
      }
    }
  }

  lemma OthersKeep(s: S.State, e: S.Event, who: Party)
    requires S.Enabled(s, e) && !Belongs(e, who)
    ensures who == OnReader ==> S.Apply(s, e).reader == s.reader
    ensures who == OnPacer ==> S.Apply(s, e).pacer == s.pacer
  {
  }

  lemma BarrierStep(s: S.State)
    requires s.pacer.pc.PBarrier? && S.InHand(s.pacer)
    ensures S.Enabled(s, S.Pacer)
    ensures S.Apply(s, S.Pacer)
            == s.(pacer := s.pacer.(deadline := s.now, first := false, restarted := true, pc := S.PMuted))
  {
  }

  class Streamer {
    // fields of the object
    var muted: bool
    var paused: bool
    var running: bool
    var doneFlag: bool
    var nsSent: nat
    var onEnd: Option<nat>
    // the channel and the reader task
    var channel: seq<S.Item>
    var readerPc: S.ReaderPc
    // locals of the pacing task; `held` is next_sample_res or the sample being handled
    var pacerPc: S.PacerPc
    var firstSample: bool
    var nextDeadline: nat
    var held: seq<S.Item>
    var reason: Option<S.Reason>
    var now: nat // the clock
    // the source, and what happened so far
    const source: seq<S.Item>
    const begin: nat
    var everStopped: bool
    var restarted: bool
    var read: seq<S.Item>
    var hist: S.History
    var reported: seq<S.Report>
    ghost var trace: seq<S.Event>

    function Pacer(): S.PacerTask
      reads this
    {
      S.PacerTask(pacerPc, firstSample, restarted, nextDeadline, held, reason)
    }

    function Reader(): S.ReaderTask
      reads this
    {
      S.ReaderTask(readerPc, source, read)
    }

    function Flags(): S.Flags
      reads this
    {
      S.Flags(running, paused, muted, everStopped)
    }

    function View(): S.State
      reads this
    {
      S.State(now, Flags(), Reader(), channel, Pacer(), hist, nsSent, doneFlag, onEnd, reported)
    }

    ghost predicate At(s: S.State)
      reads this
    {
      S.Possible(S.Init(source, begin), trace) && s == S.Run(S.Init(source, begin), trace)
    }

    ghost predicate Valid()
      reads this
    {
      At(View())
    }

    lemma Safely()
      requires Valid()
      ensures Safe(View())
    {
      EveryRunIsSafe(source, begin, trace);
    }

    constructor (source: seq<S.Item>, clock: nat)
      ensures Valid() && View() == S.Init(source, clock) && this.source == source && trace == []
    {
      muted, paused, running, doneFlag := false, false, true, false;
      nsSent, onEnd, channel, readerPc := 0, None, [], S.RLoop;
      pacerPc, firstSample, nextDeadline, held, reason := S.PFirst, true, clock, [], None;
      now, everStopped, restarted, read := clock, false, false, [];
      hist, reported := S.History([], [], []), [];
      this.source, begin, trace := source, clock, [];
    }

    /** Books the step that led here. */
    ghost method Record(before: S.State, e: S.Event)
      requires At(before) && S.Enabled(before, e) && View() == S.Apply(before, e)
      modifies `trace
      ensures Valid() && trace == old(trace) + [e]
    {
      RunAppend(S.Init(source, begin), trace, e);
      trace := trace + [e];
    }

    // ----- Callers -----

    /** Nothing changes unless the streamer was stopped before; and a loop that has ended stays so. */
    method Start()
      requires Valid()
      modifies `running, `trace
      ensures Valid() && trace == old(trace) + [S.Caller(S.Start)]
      ensures running && (!everStopped ==> View() == old(View()))
      ensures !InLoop(pacerPc) ==> Over(View())
    {
      ghost var before := View();
      Safely();
      running := true;
      Record(before, S.Caller(S.Start));
      if !InLoop(pacerPc) {
        EndedForGood(View());
      }
    }

    method Pause()
      requires Valid()
      modifies `paused, `trace
      ensures Valid() && trace == old(trace) + [S.Caller(S.Pause)]
      ensures paused && SendsOneMoreAtMost(View()) && ReadsOneMoreAtMost(View())
    {
      ghost var before := View();
      paused := true;
      Record(before, S.Caller(S.Pause));
      BlockedSendsOne(View());
      BlockedReadsOne(View());
    }

    method Resume()
      requires Valid()
      modifies `paused, `trace
      ensures Valid() && trace == old(trace) + [S.Caller(S.Resume)]
      ensures !paused && (Waiting(Pacer()) ==> NextFrameAfresh(View())) && (running ==> GoesOn(View()))
    {
      ghost var before := View();
      paused := false;
      Record(before, S.Caller(S.Resume));
      if running {
        ResumedGoesOn(View());
      }
      if Waiting(Pacer()) {
        WaitingStartsAfresh(View());
      }
    }

    method SetMuted(b: bool)
      requires Valid()
      modifies `muted, `trace
      ensures Valid() && trace == old(trace) + [S.Caller(S.SetMuted(b))]
      ensures muted == b && (b ==> SendsLoadedAtMost(View()))
    {
      ghost var before := View();
      muted := b;
      Record(before, S.Caller(S.SetMuted(b)));
      if b {
        MutedSendsLoaded(View());
      }
    }

    method OnEnd(callback: nat)
      requires Valid()
      modifies `onEnd, `trace
      ensures Valid() && trace == old(trace) + [S.Caller(S.OnEnd(callback))]
      ensures onEnd == Some(callback) && (!pacerPc.PReport? && !pacerPc.PDone? ==> KeepsPromise(View(), callback))
    {
      ghost var before := View();
      Safely();
      onEnd := Some(callback);
      Record(before, S.Caller(S.OnEnd(callback)));
      if !pacerPc.PReport? && !pacerPc.PDone? {
        PromiseKept(View(), callback);
      }
    }

    method ClearCallback()
      requires Valid()
      modifies `onEnd, `trace
      ensures Valid() && trace == old(trace) + [S.Caller(S.StopClearsCallback)]
      ensures !pacerPc.PReport? && !pacerPc.PDone? ==> Silent(View())
    {
      ghost var before := View();
      Safely();
      onEnd := None;
      Record(before, S.Caller(S.StopClearsCallback));
    }

    method ClearRunning()
      requires Valid()
      modifies `running, `everStopped, `trace
      ensures Valid() && trace == old(trace) + [S.Caller(S.StopClearsRunning)]
      ensures !running && everStopped && (old(Silent(View())) ==> Silent(View()))
    {
      ghost var before := View();
      running := false;
      everStopped := true;
      Record(before, S.Caller(S.StopClearsRunning));
    }

    /** The callback is cleared, anyone may move, `running` is cleared. */
    method Stop(between: seq<S.Event>)
      requires Valid()
      modifies this
      ensures Valid() && old(trace) + [S.Caller(S.StopClearsCallback)] <= trace
      ensures trace[|trace| - 1] == S.Caller(S.StopClearsRunning)
      ensures !running && everStopped && SendsOneMoreAtMost(View()) && ReadsOneMoreAtMost(View())
      ensures ComesToRest(View())
      ensures NoNewCallback(between) && !old(pacerPc).PReport? && !old(pacerPc).PDone? ==> NeverReports(View())
    {
      ClearCallback();
      SilentAround(View(), between);
      Others(between, OnCaller);
      ClearRunning();
      BlockedSendsOne(View());
      BlockedReadsOne(View());
      StoppedComesToRest(View());
      if Silent(View()) {
        SilentNeverReports(View());
      }
    }

    // ----- Everyone else -----

    method PutPacer(p: S.PacerTask)
      modifies `pacerPc, `firstSample, `restarted, `nextDeadline, `held, `reason
      ensures Pacer() == p
    {
      pacerPc, firstSample, restarted := p.pc, p.first, p.restarted;
      nextDeadline, held, reason := p.deadline, p.held, p.reason;
    }

    method PutReader(r: S.ReaderTask)
      requires r.source == source
      modifies `readerPc, `read
      ensures Reader() == r
    {
      readerPc, read := r.pc, r.read;
    }

    method PutFlags(f: S.Flags)
      modifies `running, `paused, `muted, `everStopped
      ensures Flags() == f
    {
      running, paused, muted, everStopped := f.running, f.paused, f.muted, f.everStopped;
    }

    method PutRest(t: S.State)
      modifies `now, `channel, `hist, `nsSent, `doneFlag, `onEnd, `reported
      ensures now == t.now && channel == t.chan && hist == t.hist && nsSent == t.nsSent
      ensures doneFlag == t.doneFlag && onEnd == t.onEnd && reported == t.reported
    {
      now, channel, hist := t.now, t.chan, t.hist;
      nsSent, doneFlag, onEnd, reported := t.nsSent, t.doneFlag, t.onEnd, t.reported;
    }

    method Put(t: S.State)
      requires t.reader.source == source
      modifies this
      ensures View() == t && trace == old(trace)
    {
      PutPacer(t.pacer);
      PutReader(t.reader);
      PutFlags(t.flags);
      PutRest(t);
    }

    /** The move of someone else. */
    method Move(e: S.Event)
      requires Valid() && S.Enabled(View(), e)
      modifies this
      ensures Valid() && View() == S.Apply(old(View()), e) && trace == old(trace) + [e]
    {
      ghost var before := View();
      SourceStep(before, e);
      Put(S.Apply(View(), e));
      Record(before, e);
    }

    /** The others move. */
    method Others(es: seq<S.Event>, who: Party)
      requires Valid()
      modifies this
      ensures Valid() && old(trace) <= trace && View() == Around(old(View()), es, who)
    {
      ghost var start := View();
      for i := 0 to |es|
        invariant Valid() && old(trace) <= trace && View() == Around(start, es[..i], who)
      {
        assert es[..i + 1][..i] == es[..i];
        if !Belongs(es[i], who) && S.Enabled(View(), es[i]) {
          Move(es[i]);
        }
      }
      assert es[..|es|] == es;
    }

    // ----- Turns of a task -----

    /** k turns are over. */
    ghost predicate Played(w: Script, k: nat)
      reads this
    {
      k <= |w.turns| && View() == Plays(w, k)
    }

    /** In turn k the others have moved, and the task is to make step e. */
    ghost predicate ToPlay(w: Script, k: nat, e: S.Event)
      reads this
    {
      && 0 < k <= |w.turns|
      && View() == Around(Plays(w, k - 1), w.turns[k - 1].others, w.who)
      && OwnEvent(View(), w.turns[k - 1], w.who) == Some(e)
    }

    /** Books the step that ends a turn. */
    ghost method Play(before: S.State, e: S.Event, w: Script, k: nat)
      requires At(before) && S.Enabled(before, e) && View() == S.Apply(before, e)
      requires 0 < k <= |w.turns| && before == Around(Plays(w, k - 1), w.turns[k - 1].others, w.who)
      requires OwnEvent(before, w.turns[k - 1], w.who) == Some(e)
      modifies `trace
      ensures Valid() && Played(w, k)
    {
      Record(before, e);
    }

    /** A turn passes, up to the task's own step if it can make one. */
    method TakesTurn(w: Script, k: nat) returns (e: Option<S.Event>)
      requires Valid() && Played(w, k) && k < |w.turns|
      modifies this
      ensures Valid() && (w.who == OnReader ==> Reader() == old(Reader())) && (w.who == OnPacer ==> Pacer() == old(Pacer()))
      ensures if e.Some? then ToPlay(w, k + 1, e.value) else Played(w, k + 1)
    {
      AroundKeeps(View(), w.turns[k].others, w.who);
      Others(w.turns[k].others, w.who);
      e := OwnEvent(View(), w.turns[k], w.who);
    }

    /** Turns pass until the task can make a step. */
    method Waits(w: Script, i: nat) returns (j: nat, e: Option<S.Event>)
      requires Valid() && Played(w, i)
      modifies this
      ensures Valid() && i <= j
      ensures (w.who == OnReader ==> Reader() == old(Reader())) && (w.who == OnPacer ==> Pacer() == old(Pacer()))
      ensures if e.Some? then i < j && ToPlay(w, j, e.value) else j == |w.turns| && Played(w, j)
      decreases |w.turns| - i
    {
      j, e := i, None;
      if i < |w.turns| {
        e := TakesTurn(w, i);
        j := i + 1;
        if e == None {
          j, e := Waits(w, j);
        }
      }
    }

    // ----- The reader task, lines 79-108 -----

    /** A flag was as it was: on to `next`. */
    method ReaderGoes(next: S.ReaderPc, ghost w: Script, ghost k: nat)
      requires Valid() && ToPlay(w, k, S.Reader)
      requires S.ReaderStep(View()) == View().(reader := Reader().(pc := next))
      modifies `readerPc, `trace
      ensures Valid() && Played(w, k) && readerPc == next
    {
      ghost var before := View();
      readerPc := next;
      Play(before, S.Reader, w, k);
    }

    /** `if running` before going on to `next`; otherwise out of the loop. */
    method ReaderTests(w: Script, i: nat, next: S.ReaderPc) returns (j: nat, go: bool)
      requires Valid() && Played(w, i) && w.who == OnReader
      requires (readerPc.RLoop? && next.RPaused?) || (readerPc.RCheck? && next.RRead?)
      modifies this
      ensures Valid() && Played(w, j) && i <= j
      ensures if go then i < j && (readerPc == next || readerPc.RDone?) else j == |w.turns| && !readerPc.RDone?
    {
      var e;
      j, e := Waits(w, i);
      go := e.Some?;
      if go {
        ReaderGoes(if running then next else S.RDone([]), w, j);
      }
    }

    /** while paused && running: wait. */
    method ReaderPauses(w: Script, i: nat) returns (j: nat, go: bool)
      requires Valid() && Played(w, i) && w.who == OnReader && readerPc.RPaused?
      modifies this
      ensures Valid() && Played(w, j) && i <= j
      ensures if go then readerPc.RCheck? else j == |w.turns| && !readerPc.RDone?
    {
      j, go := i, true;
      while go && !readerPc.RCheck?
        invariant Valid() && Played(w, j) && i <= j
        invariant readerPc.RPaused? || readerPc.RPausedRunning? || readerPc.RCheck?
        invariant !go ==> j == |w.turns|
        decreases go, |w.turns| - j
      {
        var e;
        j, e := Waits(w, j);
        go := e.Some?;
        if go {
          ReaderGoes(if readerPc.RPaused? then (if paused then S.RPausedRunning else S.RCheck)
                     else (if running then S.RPaused else S.RCheck), w, j);
        }
      }
    }

    /** next_sample, or the stall timeout. */
    method ReaderReads(w: Script, i: nat) returns (j: nat, go: bool)
      requires Valid() && Played(w, i) && w.who == OnReader && readerPc.RRead?
      modifies this
      ensures Valid() && Played(w, j) && i <= j
      ensures if go then readerPc.RSend? else j == |w.turns| && readerPc.RRead?
    {
      var e;
      j, e := Waits(w, i);
      go := e.Some?;
      if go {
        var item := if e.value.ReadStalls? then Err(Internal) else source[|read|];
        ghost var before := View();
        read := read + [item];
        readerPc := S.RSend(item);
        Play(before, e.value, w, j);
      }
    }

    /** tx.send, and the break on its error or on that of the read. */
    method ReaderSends(w: Script, i: nat) returns (j: nat, go: bool)
      requires Valid() && Played(w, i) && w.who == OnReader && readerPc.RSend?
      modifies this
      ensures Valid() && Played(w, j) && i <= j
      ensures if go then i < j && (readerPc.RDone? || readerPc.RLoop?) else j == |w.turns| && readerPc.RSend?
    {
      var e;
      j, e := Waits(w, i);
      go := e.Some?;
      if go {
        Delivers(w, j);
      }
    }

    method Delivers(ghost w: Script, ghost k: nat)
      requires Valid() && ToPlay(w, k, S.Reader) && readerPc.RSend?
      modifies `readerPc, `channel, `trace
      ensures Valid() && Played(w, k) && (readerPc.RDone? || readerPc.RLoop?)
    {
      ghost var before := View();
      var item := readerPc.item;
      if pacerPc.PDone? {
        readerPc := S.RDone([item]);
      } else {
        channel := channel + [item];
        readerPc := if item.Err? then S.RDone([]) else S.RLoop;
      }
      Play(before, S.Reader, w, k);
    }

    /** Once round the loop. */
    method ReaderRound(w: Script, i: nat) returns (j: nat, go: bool)
      requires Valid() && Played(w, i) && w.who == OnReader && readerPc.RLoop?
      modifies this
      ensures Valid() && Played(w, j) && i <= j
      ensures if go then i < j && (readerPc.RLoop? || readerPc.RDone?) else j == |w.turns| && !readerPc.RDone?
    {
      j, go := ReaderTests(w, i, S.RPaused);
      if go && readerPc.RPaused? {
        j, go := ReaderPauses(w, j);
        if go {
          j, go := ReaderTests(w, j, S.RRead);
        }
      }
      if go && readerPc.RRead? {
        j, go := ReaderReads(w, j);
        if go {
          j, go := ReaderSends(w, j);
        }
      }
    }

    lemma ReaderLeft()
      requires Valid() && readerPc.RDone?
      ensures everStopped || pacerPc.PDone? || (readerPc == S.RDone([]) && read != [] && read[|read| - 1].Err?)
    {
      Safely();
    }

    /** The task, to its end or as far as the turns last; `used` turns have led where `Plays` says. It
        ends only when the streamer was stopped, the pacing task is gone, or an error was read and
        sent on. */
    method ReaderTask(turns: seq<Turn>) returns (done: bool, used: nat)
      requires Valid() && readerPc.RLoop?
      modifies this
      ensures Valid() && used <= |turns| && View() == Plays(Script(OnReader, old(View()), turns), used)
      ensures if done then readerPc.RDone? else used == |turns| && !readerPc.RDone?
      ensures done ==> everStopped || pacerPc.PDone? || (readerPc == S.RDone([]) && read != [] && read[|read| - 1].Err?)
    {
      var w := Script(OnReader, View(), turns);
      used, done := 0, false;
      var go := true;
      while go && readerPc.RLoop?
        invariant Valid() && Played(w, used)
        invariant if go then readerPc.RLoop? || readerPc.RDone? else used == |turns| && !readerPc.RDone?
        decreases go, |turns| - used
      {
        used, go := ReaderRound(w, used);
      }
      done := go;
      if done {
        ReaderLeft();
      }
    }

    // ----- The pacing task, lines 111-184 -----

    /** A flag was as it was: on to `next`. */
    method PacerGoes(next: S.PacerPc, ghost w: Script, ghost k: nat)
      requires Valid() && ToPlay(w, k, S.Pacer)
      requires S.PacerStep(View()) == View().(pacer := Pacer().(pc := next))
      modifies `pacerPc, `trace
      ensures Valid() && Played(w, k) && pacerPc == next
    {
      ghost var before := View();
      pacerPc := next;
      Play(before, S.Pacer, w, k);
    }

    method PacerStops(ghost w: Script, ghost k: nat)
      requires Valid() && ToPlay(w, k, S.Pacer) && (pacerPc.PLoop? || pacerPc.PCheck?) && !running
      modifies `pacerPc, `reason, `trace
      ensures Valid() && Played(w, k) && pacerPc.PEnd?
    {
      ghost var before := View();
      reason := Some(S.Stopped);
      pacerPc := S.PEnd;
      Play(before, S.Pacer, w, k);
    }

    /** `if running` before going on to `next`; otherwise out of the loop. */
    method PacerTests(w: Script, i: nat, next: S.PacerPc) returns (j: nat, go: bool)
      requires Valid() && Played(w, i) && w.who == OnPacer
      requires (pacerPc.PLoop? && next.PPaused?) || (pacerPc.PCheck? && next.PTake?)
      modifies this
      ensures Valid() && Played(w, j) && i <= j
      ensures if go then i < j && (pacerPc == next || pacerPc.PEnd?) else j == |w.turns| && InLoop(pacerPc)
    {
      var e;
      j, e := Waits(w, i);
      go := e.Some?;
      if go {
        if running {
          PacerGoes(next, w, j);
        } else {
          PacerStops(w, j);
        }
      }
    }

    /** In the pause wait: `running` found set starts the wait, after which the next sample counts as
        the first. */
    method PacerPausedRunning(ghost w: Script, ghost k: nat)
      requires Valid() && ToPlay(w, k, S.Pacer) && pacerPc.PPausedRunning?
      modifies `pacerPc, `firstSample, `trace
      ensures Valid() && Played(w, k) && (pacerPc.PPaused? || pacerPc.PCheck?)
    {
      ghost var before := View();
      if running {
        firstSample := true;
        pacerPc := S.PPaused;
      } else {
        pacerPc := S.PCheck;
      }
      Play(before, S.Pacer, w, k);
    }

    /** while paused && running: wait. */
    method PacerPauses(w: Script, i: nat) returns (j: nat, go: bool)
      requires Valid() && Played(w, i) && w.who == OnPacer && pacerPc.PPaused?
      modifies this
      ensures Valid() && Played(w, j) && i <= j
      ensures if go then pacerPc.PCheck? else j == |w.turns| && InLoop(pacerPc)
    {
      j, go := i, true;
      while go && !pacerPc.PCheck?
        invariant Valid() && Played(w, j) && i <= j
        invariant pacerPc.PPaused? || pacerPc.PPausedRunning? || pacerPc.PCheck?
        invariant !go ==> j == |w.turns|
        decreases go, |w.turns| - j
      {
        var e;
        j, e := Waits(w, j);
        go := e.Some?;
        if go {
          if pacerPc.PPaused? {
            PacerGoes(if paused then S.PPausedRunning else S.PCheck, w, j);
          } else {
            PacerPausedRunning(w, j);
          }
        }
      }
    }

    method TakesOldest(next: S.PacerPc)
      modifies `pacerPc, `held, `channel
      ensures var t := S.Received(old(View()), next); Pacer() == t.pacer && channel == t.chan
    {
      if channel == [] {
        held := [];
      } else {
        held := [channel[0]];
        channel := channel[1..];
      }
      pacerPc := next;
    }

    /** rx.recv, before the loop and in the join. */
    method Receives(next: S.PacerPc, ghost e: S.Event, ghost w: Script, ghost k: nat)
      requires Valid() && ToPlay(w, k, e)
      requires || (pacerPc.PFirst? && e == S.Pacer && next == S.PLoop)
               || (pacerPc.PJoin? && e == S.Receive && next == pacerPc.(received := true))
      modifies `pacerPc, `held, `channel, `trace
      ensures Valid() && Played(w, k) && pacerPc == next
    {
      ghost var before := View();
      TakesOldest(next);
      Play(before, e, w, k);
    }

    method LeavesLoop(why: S.Reason)
      modifies `pacerPc, `held, `reason, `hist
      ensures Pacer() == old(Pacer()).(pc := S.PEnd, held := [], reason := Some(why))
      ensures hist == old(hist).(consumed := old(hist).consumed + old(held))
    {
      hist := hist.(consumed := hist.consumed + held);
      held := [];
      reason := Some(why);
      pacerPc := S.PEnd;
    }

    method MatchesSample()
      requires pacerPc.PTake?
      modifies `pacerPc, `held, `restarted, `reason, `hist
      ensures var t := S.Take(old(View())); Pacer() == t.pacer && hist == t.hist
      ensures pacerPc.PEnd? || ((pacerPc.PMuted? || pacerPc.PBarrier?) && S.InHand(Pacer()))
    {
      if held == [] {
        reason := Some(S.ChannelClosed);
        pacerPc := S.PEnd;
      } else if held[0].Err? {
        LeavesLoop(S.SourceEnd(held[0].error));
      } else {
        restarted := false;
        pacerPc := if firstSample then S.PBarrier else S.PMuted;
      }
    }

    method TakesSample(ghost w: Script, ghost k: nat)
      requires Valid() && ToPlay(w, k, S.Pacer) && pacerPc.PTake?
      modifies `pacerPc, `held, `restarted, `reason, `hist, `trace
      ensures Valid() && Played(w, k)
      ensures pacerPc.PEnd? || ((pacerPc.PMuted? || pacerPc.PBarrier?) && S.InHand(Pacer()))
    {
      ghost var before := View();
      MatchesSample();
      Play(before, S.Pacer, w, k);
    }

    /** next_sample_res.take() and the two matches on it. */
    method Takes(w: Script, i: nat) returns (j: nat, go: bool)
      requires Valid() && Played(w, i) && w.who == OnPacer && pacerPc.PTake?
      modifies this
      ensures Valid() && Played(w, j) && i <= j
      ensures if go then i < j && (pacerPc.PEnd? || ((pacerPc.PMuted? || pacerPc.PBarrier?) && S.InHand(Pacer())))
              else j == |w.turns| && InLoop(pacerPc)
    {
      var e;
      j, e := Waits(w, i);
      go := e.Some?;
      if go {
        TakesSample(w, j);
      }
    }

    method SetsDeadline(ghost w: Script, ghost k: nat)
      requires Valid() && ToPlay(w, k, S.Pacer) && pacerPc.PBarrier? && S.InHand(Pacer())
      modifies `nextDeadline, `firstSample, `restarted, `pacerPc, `trace
      ensures Valid() && Played(w, k) && pacerPc.PMuted?
    {
      ghost var before := View();
      BarrierStep(before);
      nextDeadline := now;
      firstSample := false;
      restarted := true;
      pacerPc := S.PMuted;
      Play(before, S.Pacer, w, k);
    }

    /** if first_sample: the barrier, then a new deadline. */
    method Barrier(w: Script, i: nat) returns (j: nat, go: bool)
      requires Valid() && Played(w, i) && w.who == OnPacer && (pacerPc.PMuted? || pacerPc.PBarrier?) && S.InHand(Pacer())
      modifies this
      ensures Valid() && Played(w, j) && i <= j && S.InHand(Pacer())
      ensures if go then pacerPc.PMuted? else j == |w.turns| && InLoop(pacerPc)
    {
      j, go := i, true;
      if pacerPc.PBarrier? {
        var e;
        j, e := Waits(w, i);
        go := e.Some?;
        if go {
          SetsDeadline(w, j);
        }
      }
    }

    /** The frame is handled, sent or not. */
    method Handles(sent: bool, ghost w: Script, ghost k: nat)
      requires Valid() && ToPlay(w, k, S.Pacer) && S.InHand(Pacer())
      requires if sent then pacerPc.PSend? else pacerPc.PMuted? && muted
      modifies `pacerPc, `hist, `trace
      ensures Valid() && Played(w, k) && pacerPc == if sent then S.PSending else S.PPace
    {
      ghost var before := View();
      hist := hist.(log := hist.log + [S.Frame(held[0].value, nextDeadline, now, restarted, !sent)]);
      pacerPc := if sent then S.PSending else S.PPace;
      Play(before, S.Pacer, w, k);
    }

    method FindsMuted(ghost w: Script, ghost k: nat)
      requires Valid() && ToPlay(w, k, S.Pacer) && pacerPc.PMuted? && S.InHand(Pacer())
      modifies `pacerPc, `hist, `trace
      ensures Valid() && Played(w, k) && (pacerPc.PPace? || pacerPc.PSend?)
    {
      if muted {
        Handles(false, w, k);
      } else {
        PacerGoes(S.PSend, w, k);
      }
    }

    /** if !muted, in which case a send is to come. */
    method MuteTest(w: Script, i: nat) returns (j: nat, go: bool)
      requires Valid() && Played(w, i) && w.who == OnPacer && pacerPc.PMuted? && S.InHand(Pacer())
      modifies this
      ensures Valid() && Played(w, j) && i <= j && S.InHand(Pacer())
      ensures if go then pacerPc.PPace? || pacerPc.PSend? else j == |w.turns| && InLoop(pacerPc)
    {
      var e;
      j, e := Waits(w, i);
      go := e.Some?;
      if go {
        FindsMuted(w, j);
      }
    }

    method SendReturns(outcome: Option<Error>, ghost w: Script, ghost k: nat)
      requires Valid() && ToPlay(w, k, S.Sent(outcome)) && pacerPc.PSending?
      modifies `pacerPc, `held, `reason, `hist, `trace
      ensures Valid() && Played(w, k)
      ensures if outcome == None then pacerPc.PPace? && held == old(held) else pacerPc.PEnd?
    {
      ghost var before := View();
      if outcome == None {
        pacerPc := S.PPace;
      } else {
        LeavesLoop(S.SendFailed(outcome.value));
      }
      Play(before, S.Sent(outcome), w, k);
    }

    /** The call of send_rtp_bytes, its return in a later turn, and the break on its error. */
    method Sends(w: Script, i: nat) returns (j: nat, go: bool)
      requires Valid() && Played(w, i) && w.who == OnPacer && pacerPc.PSend? && S.InHand(Pacer())
      modifies this
      ensures Valid() && Played(w, j) && i <= j
      ensures if go then (pacerPc.PPace? && S.InHand(Pacer())) || pacerPc.PEnd? else j == |w.turns| && InLoop(pacerPc)
    {
      var e;
      j, e := Waits(w, i);
      if e.Some? {
        Handles(true, w, j);
        j, e := Waits(w, j);
        if e.Some? {
          SendReturns(e.value.outcome, w, j);
        }
      }
      go := e.Some?;
    }

    method MovesDeadline()
      requires pacerPc.PPace? && S.InHand(Pacer())
      modifies `nsSent, `nextDeadline, `held, `pacerPc, `hist
      ensures var t := S.Paced(old(View())); Pacer() == t.pacer && hist == t.hist && nsSent == t.nsSent
      ensures pacerPc.PJoin?
    {
      var dur := held[0].value.duration;
      nsSent := (nsSent + dur % TWO64) % TWO64;
      nextDeadline := nextDeadline + dur;
      var slept, late := true, false;
      if nextDeadline > now {
        slept := false;
      } else if now - nextDeadline > S.SLACK {
        late := true;
        nextDeadline := now;
      }
      hist := hist.(paces := hist.paces + [S.Pace(now, late)], consumed := hist.consumed + held);
      held := [];
      pacerPc := S.PJoin(slept, false);
    }

    method PacesFrame(ghost w: Script, ghost k: nat)
      requires Valid() && ToPlay(w, k, S.Pacer) && pacerPc.PPace? && S.InHand(Pacer())
      modifies `nsSent, `nextDeadline, `held, `pacerPc, `hist, `trace
      ensures Valid() && Played(w, k) && pacerPc.PJoin?
    {
      ghost var before := View();
      MovesDeadline();
      Play(before, S.Pacer, w, k);
    }

    /** ns_sent, next_deadline, the clock reading, and the resync. */
    method Paces(w: Script, i: nat) returns (j: nat, go: bool)
      requires Valid() && Played(w, i) && w.who == OnPacer && pacerPc.PPace? && S.InHand(Pacer())
      modifies this
      ensures Valid() && Played(w, j) && i <= j
      ensures if go then pacerPc.PJoin? else j == |w.turns| && InLoop(pacerPc)
    {
      var e;
      j, e := Waits(w, i);
      go := e.Some?;
      if go {
        PacesFrame(w, j);
      }
    }

    method Sleeps(ghost w: Script, ghost k: nat)
      requires Valid() && ToPlay(w, k, S.SleepEnds)
      modifies `pacerPc, `trace
      ensures Valid() && Played(w, k) && pacerPc.PJoin?
    {
      ghost var before := View();
      pacerPc := S.PJoin(true, pacerPc.received);
      Play(before, S.SleepEnds, w, k);
    }

    /** join!(sleep, recv): both, in either order, each when it can; then back to the loop's test. */
    method Joins(w: Script, i: nat) returns (j: nat, go: bool)
      requires Valid() && Played(w, i) && w.who == OnPacer && pacerPc.PJoin?
      modifies this
      ensures Valid() && Played(w, j) && i <= j
      ensures if go then pacerPc.PLoop? else j == |w.turns| && InLoop(pacerPc)
    {
      j, go := i, true;
      while go && pacerPc.PJoin?
        invariant Valid() && Played(w, j) && i <= j && (pacerPc.PJoin? || pacerPc.PLoop?)
        invariant !go ==> j == |w.turns|
        decreases go, |w.turns| - j
      {
        var e;
        j, e := Waits(w, j);
        go := e.Some?;
        if go {
          JoinsLeg(e.value, w, j);
        }
      }
    }

    method JoinsLeg(e: S.Event, ghost w: Script, ghost k: nat)
      requires Valid() && ToPlay(w, k, e) && w.who == OnPacer && pacerPc.PJoin?
      modifies this
      ensures Valid() && Played(w, k) && (pacerPc.PJoin? || pacerPc.PLoop?)
    {
      if e.Receive? {
        Receives(pacerPc.(received := true), S.Receive, w, k);
      } else if e.SleepEnds? {
        Sleeps(w, k);
      } else {
        PacerGoes(S.PLoop, w, k);
      }
    }

    /** From the take to the end of the send. */
    method TakesAndSends(w: Script, i: nat) returns (j: nat, go: bool)
      requires Valid() && Played(w, i) && w.who == OnPacer && pacerPc.PTake?
      modifies this
      ensures Valid() && Played(w, j) && i <= j
      ensures if go then i < j && ((pacerPc.PPace? && S.InHand(Pacer())) || pacerPc.PEnd?)
              else j == |w.turns| && InLoop(pacerPc)
    {
      j, go := Takes(w, i);
      if go && !pacerPc.PEnd? {
        j, go := Barrier(w, j);
        if go {
          j, go := MuteTest(w, j);
        }
        if go && pacerPc.PSend? {
          j, go := Sends(w, j);
        }
      }
    }

    /** The loop body from the take on, back to the loop's test or out of the loop. */
    method PacerHandles(w: Script, i: nat) returns (j: nat, go: bool)
      requires Valid() && Played(w, i) && w.who == OnPacer && pacerPc.PTake?
      modifies this
      ensures Valid() && Played(w, j) && i <= j
      ensures if go then i < j && (pacerPc.PLoop? || pacerPc.PEnd?) else j == |w.turns| && InLoop(pacerPc)
    {
      j, go := TakesAndSends(w, i);
      if go && pacerPc.PPace? {
        j, go := Paces(w, j);
        if go {
          j, go := Joins(w, j);
        }
      }
    }

    /** Once round the loop. */
    method PacerRound(w: Script, i: nat) returns (j: nat, go: bool)
      requires Valid() && Played(w, i) && w.who == OnPacer && pacerPc.PLoop?
      modifies this
      ensures Valid() && Played(w, j) && i <= j
      ensures if go then i < j && (pacerPc.PLoop? || pacerPc.PEnd?) else j == |w.turns| && InLoop(pacerPc)
    {
      j, go := PacerTests(w, i, S.PPaused);
      if go && pacerPc.PPaused? {
        j, go := PacerPauses(w, j);
        if go {
          j, go := PacerTests(w, j, S.PTake);
        }
      }
      if go && pacerPc.PTake? {
        j, go := PacerHandles(w, j);
      }
    }

    method Finishes(ghost w: Script, ghost k: nat)
      requires Valid() && ToPlay(w, k, S.Pacer) && pacerPc.PEnd?
      modifies `pacerPc, `doneFlag, `trace
      ensures Valid() && Played(w, k) && pacerPc.PTakeCallback?
    {
      ghost var before := View();
      doneFlag := true;
      pacerPc := S.PTakeCallback;
      Play(before, S.Pacer, w, k);
    }

    method TakesCallback(ghost w: Script, ghost k: nat)
      requires Valid() && ToPlay(w, k, S.Pacer) && pacerPc.PTakeCallback?
      modifies `pacerPc, `onEnd, `trace
      ensures Valid() && Played(w, k) && (pacerPc.PReport? || pacerPc.PDone?)
    {
      ghost var before := View();
      var cb := onEnd;
      onEnd := None;
      pacerPc := if cb.Some? then S.PReport(cb.value) else S.PDone;
      Play(before, S.Pacer, w, k);
    }

    method CallsBack(ghost w: Script, ghost k: nat)
      requires Valid() && ToPlay(w, k, S.Pacer) && pacerPc.PReport?
      modifies `pacerPc, `reported, `trace
      ensures Valid() && Played(w, k) && pacerPc.PDone?
    {
      ghost var before := View();
      reported := reported + [S.Report(pacerPc.callback, S.EndError(reason))];
      pacerPc := S.PDone;
      Play(before, S.Pacer, w, k);
    }

    method SetsDone(w: Script, i: nat) returns (j: nat, go: bool)
      requires Valid() && Played(w, i) && w.who == OnPacer && pacerPc.PEnd?
      modifies this
      ensures Valid() && Played(w, j)
      ensures if go then pacerPc.PTakeCallback? else j == |w.turns| && pacerPc.PEnd?
    {
      var e;
      j, e := Waits(w, i);
      go := e.Some?;
      if go {
        Finishes(w, j);
      }
    }

    method TakesOnEnd(w: Script, i: nat) returns (j: nat, go: bool)
      requires Valid() && Played(w, i) && w.who == OnPacer && pacerPc.PTakeCallback?
      modifies this
      ensures Valid() && Played(w, j)
      ensures if go then pacerPc.PReport? || pacerPc.PDone? else j == |w.turns| && pacerPc.PTakeCallback?
    {
      var e;
      j, e := Waits(w, i);
      go := e.Some?;
      if go {
        TakesCallback(w, j);
      }
    }

    method CallsOnEnd(w: Script, i: nat) returns (j: nat, go: bool)
      requires Valid() && Played(w, i) && w.who == OnPacer && pacerPc.PReport?
      modifies this
      ensures Valid() && Played(w, j)
      ensures if go then pacerPc.PDone? else j == |w.turns| && pacerPc.PReport?
    {
      var e;
      j, e := Waits(w, i);
      go := e.Some?;
      if go {
        CallsBack(w, j);
      }
    }

    /** done_flag; taking the callback; calling it. */
    method Ends(w: Script, i: nat) returns (j: nat, go: bool)
      requires Valid() && Played(w, i) && w.who == OnPacer && pacerPc.PEnd?
      modifies this
      ensures Valid() && Played(w, j)
      ensures if go then pacerPc.PDone? else j == |w.turns| && !pacerPc.PDone?
    {
      j, go := SetsDone(w, i);
      if go {
        j, go := TakesOnEnd(w, j);
      }
      if go && pacerPc.PReport? {
        j, go := CallsOnEnd(w, j);
      }
    }

    /** What the pacing task has done once it is done: only samples of the source, in order; all that
        were read before an error of the source; one report at most; and the done flag is set. */
    ghost predicate PacedOut()
      reads this
    {
      && Frames(hist.log) <= Values(source) && |reported| <= 1
      && doneFlag && reason.Some?
      && match reason.value
         case SourceEnd(e) => read != [] && read[|read| - 1] == Err(e) && Frames(hist.log) == Values(read)
         case SendFailed(_) => true
         case _ => everStopped
    }

    lemma PacerLeft()
      requires Valid() && pacerPc.PDone?
      ensures PacedOut()
    {
      Safely();
      HandledIsPrefix(View());
      LoopEnds(View());
      DoneMeansEnded(source, begin, trace);
    }

    /** The task, to its end or as far as the turns last; `used` turns have led where `Plays` says. */
    method PacingTask(turns: seq<Turn>) returns (done: bool, used: nat)
      requires Valid() && pacerPc.PFirst?
      modifies this
      ensures Valid() && used <= |turns| && View() == Plays(Script(OnPacer, old(View()), turns), used)
      ensures if done then pacerPc.PDone? else used == |turns| && !pacerPc.PDone?
      ensures done ==> PacedOut()
    {
      var w := Script(OnPacer, View(), turns);
      var e;
      used, e := Waits(w, 0);
      var go := e.Some?;
      if go {
        Receives(S.PLoop, S.Pacer, w, used);
      }
      while go && pacerPc.PLoop?
        invariant Valid() && Played(w, used)
        invariant if go then pacerPc.PLoop? || pacerPc.PEnd? else used == |turns| && InLoop(pacerPc)
        decreases go, |turns| - used
      {
        used, go := PacerRound(w, used);
      }
      done := false;
      if go {
        used, done := Ends(w, used);
      }
      if done {
        PacerLeft();
      }
    }
  }
}
