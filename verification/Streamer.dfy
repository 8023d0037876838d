/** media/streamer.rs: a reader task that prefetches samples into a bounded channel and a
    pacing task that hands them to the transport on an absolute deadline, under pause, mute
    and stop from outside.

    The two tasks and the callers are one state machine. Every load or store of a shared flag,
    every channel operation, every reading of the clock is a step of its own, and steps of the
    tasks and of the callers interleave in any order. Time moves only by `Tick`, any amount,
    between any two steps. */
module Streamer {
  import opened Media

  const CAPACITY := 256
  const SLACK: nat := 100_000_000 // 100 ms

  type Item = Result<Sample>

  /** Where the reader task is (lines 80-108). */
  datatype ReaderPc =
    | RLoop               // while running
    | RPaused             // while paused ...
    | RPausedRunning      // ... && running
    | RCheck              // if !running break
    | RRead               // next_sample, or the stall timeout
    | RSend(item: Item)   // tx.send
    | RDone(unsent: seq<Item>)

  /** Where the pacing task is (lines 111-184). */
  datatype PacerPc =
    | PFirst              // the recv before the loop
    | PLoop               // while running
    | PPaused             // while paused ...
    | PPausedRunning      // ... && running
    | PCheck              // if !running break
    | PTake               // take the prefetched result
    | PBarrier            // first sample: barrier, then a new deadline
    | PMuted              // if !muted
    | PSend               // call send_rtp_bytes
    | PSending            // wait for it
    | PPace               // ns_sent, next_deadline, the clock
    | PJoin(slept: bool, received: bool) // join!(sleep, recv)
    | PEnd                // done_flag
    | PTakeCallback
    | PReport(callback: nat)
    | PDone

  /** Why the pacing loop ended. */
  datatype Reason = Stopped | SourceEnd(error: Error) | ChannelClosed | SendFailed(error: Error)

  /** end_error, at the end of the loop. */
  function EndError(reason: Option<Reason>): Option<Error> {
    match reason
    case Some(SourceEnd(e)) => Some(e)
    case Some(SendFailed(e)) => Some(e)
    case _ => None
  }

  /** A call of the callback, and the error it is given. */
  datatype Report = Report(callback: nat, error: Option<Error>)

  /** A frame as it was handled: its deadline, the time, and whether the deadline had just been
      set anew at the first sample. A muted frame keeps its slot but is not sent. */
  datatype Frame = Frame(sample: Sample, slot: nat, at: nat, restarted: bool, muted: bool)

  /** The clock reading after a frame, and whether it moved the deadline. */
  datatype Pace = Pace(at: nat, resynced: bool)

  /** The flags the callers set; `everStopped` is history. */
  datatype Flags = Flags(running: bool, paused: bool, muted: bool, everStopped: bool)

  /** The reader task: `source` is what the frame reader would return call by call. */
  datatype ReaderTask = ReaderTask(pc: ReaderPc, source: seq<Item>, read: seq<Item>)

  /** The pacing task's locals; `held` is the prefetched result or the sample being handled. */
  datatype PacerTask = PacerTask(
    pc: PacerPc, first: bool, restarted: bool, deadline: nat, held: seq<Item>, reason: Option<Reason>)

  /** What the pacing task has done. */
  datatype History = History(consumed: seq<Item>, log: seq<Frame>, paces: seq<Pace>)

  datatype State = State(
    now: nat, flags: Flags, reader: ReaderTask, chan: seq<Item>, pacer: PacerTask, hist: History,
    nsSent: nat, doneFlag: bool, onEnd: Option<nat>, reported: seq<Report>)

  function Init(source: seq<Item>, now: nat): State {
    State(now, Flags(true, false, false, false), ReaderTask(RLoop, source, []), [],
          PacerTask(PFirst, true, false, now, [], None), History([], [], []), 0, false, None, [])
  }

  /** What callers may do; stop() is StopClearsCallback then StopClearsRunning. */
  datatype Request =
    | Pause | Resume | SetMuted(b: bool) | OnEnd(callback: nat) | Start
    | StopClearsCallback | StopClearsRunning

  datatype Event =
    | Tick(d: nat)
    | Caller(call: Request)
    // reader task
    | Reader | ReadStalls
    // pacing task; Sent gives the outcome of send_rtp_bytes
    | Pacer | Sent(outcome: Option<Error>) | SleepEnds | Receive

  function InReader(pc: ReaderPc): seq<Item> {
    match pc
    case RSend(item) => [item]
    case RDone(unsent) => unsent
    case _ => []
  }

  // ----- The reader's steps -----

  function ReaderWalk(pc: ReaderPc, f: Flags): ReaderPc {
    match pc
    case RLoop => if f.running then RPaused else RDone([])
    case RPaused => if f.paused then RPausedRunning else RCheck
    case RPausedRunning => if f.running then RPaused else RCheck
    case RCheck => if f.running then RRead else RDone([])
    case _ => pc
  }

  function AfterRead(r: ReaderTask, item: Item): ReaderTask {
    ReaderTask(RSend(item), r.source, r.read + [item])
  }

  predicate ReaderEnabled(s: State) {
    match s.reader.pc
    case RRead => |s.reader.read| < |s.reader.source|
    case RSend(_) => s.pacer.pc.PDone? || |s.chan| < CAPACITY
    case RDone(_) => false
    case _ => true
  }

  function ReaderStep(s: State): (t: State)
    requires ReaderEnabled(s)
    ensures t == s.(reader := t.reader, chan := t.chan)
  {
    var r := s.reader;
    match r.pc
    case RRead => s.(reader := AfterRead(r, r.source[|r.read|]))
    case RSend(item) =>
      if s.pacer.pc.PDone? then s.(reader := r.(pc := RDone([item])))
      else s.(reader := r.(pc := if item.Err? then RDone([]) else RLoop), chan := s.chan + [item])
    case _ => s.(reader := r.(pc := ReaderWalk(r.pc, s.flags)))
  }

  // ----- The pacer's steps -----

  predicate Walks(pc: PacerPc) {
    pc.PLoop? || pc.PPaused? || pc.PPausedRunning? || pc.PCheck? || pc.PBarrier? || pc.PMuted? || pc.PJoin?
  }

  /** The steps that read flags and the clock only; at PMuted, with the sound on. */
  function PacerWalk(p: PacerTask, f: Flags, now: nat): PacerTask {
    match p.pc
    case PLoop => if f.running then p.(pc := PPaused) else p.(pc := PEnd, reason := Some(Stopped))
    case PPaused => p.(pc := if f.paused then PPausedRunning else PCheck)
    case PPausedRunning => if f.running then p.(first := true, pc := PPaused) else p.(pc := PCheck)
    case PCheck => if f.running then p.(pc := PTake) else p.(pc := PEnd, reason := Some(Stopped))
    case PBarrier => p.(deadline := now, first := false, restarted := true, pc := PMuted)
    case PMuted => p.(pc := PSend)
    case PJoin(_, _) => p.(pc := PLoop)
    case _ => p
  }

  /** rx.recv: the oldest item, or nothing once the reader is gone. */
  function Received(s: State, pc: PacerPc): State {
    s.(pacer := s.pacer.(pc := pc, held := if s.chan == [] then [] else [s.chan[0]]),
       chan := if s.chan == [] then [] else s.chan[1..])
  }

  /** Gives up the sample in hand and leaves the loop. */
  function EndConsuming(s: State, reason: Reason): State {
    s.(pacer := s.pacer.(pc := PEnd, held := [], reason := Some(reason)),
       hist := s.hist.(consumed := s.hist.consumed + s.pacer.held))
  }

  function Take(s: State): State {
    if s.pacer.held == [] then s.(pacer := s.pacer.(pc := PEnd, reason := Some(ChannelClosed)))
    else match s.pacer.held[0]
      case Err(e) => EndConsuming(s, SourceEnd(e))
      case Ok(_) => s.(pacer := s.pacer.(pc := if s.pacer.first then PBarrier else PMuted, restarted := false))
  }

  predicate InHand(p: PacerTask) {
    p.held != [] && p.held[0].Ok?
  }

  function Handled(s: State, muted: bool, pc: PacerPc): State
    requires InHand(s.pacer)
  {
    var f := Frame(s.pacer.held[0].value, s.pacer.deadline, s.now, s.pacer.restarted, muted);
    s.(pacer := s.pacer.(pc := pc), hist := s.hist.(log := s.hist.log + [f]))
  }

  /** Lines 161-173: the deadline moves on by the frame's duration, and to the present when
      that leaves it more than the slack behind. */
  function Paced(s: State): State
    requires InHand(s.pacer)
  {
    var dur := s.pacer.held[0].value.duration;
    var due := s.pacer.deadline + dur;
    var late := s.now > due + SLACK;
    s.(nsSent := (s.nsSent + dur % TWO64) % TWO64,
       pacer := s.pacer.(pc := PJoin(s.now >= due, false), deadline := if late then s.now else due, held := []),
       hist := s.hist.(paces := s.hist.paces + [Pace(s.now, late)], consumed := s.hist.consumed + s.pacer.held))
  }

  /** After the loop: done_flag, then the callback is taken, then called. */
  function EndStep(s: State): State {
    match s.pacer.pc
    case PEnd => s.(doneFlag := true, pacer := s.pacer.(pc := PTakeCallback))
    case PTakeCallback =>
      s.(onEnd := None, pacer := s.pacer.(pc := if s.onEnd.Some? then PReport(s.onEnd.value) else PDone))
    case PReport(callback) => s.(reported := s.reported + [Report(callback, EndError(s.pacer.reason))], pacer := s.pacer.(pc := PDone))
    case _ => s
  }

  /** Program points at which a sample is being handled. */
  predicate Holding(pc: PacerPc) {
    pc.PBarrier? || pc.PMuted? || pc.PSend? || pc.PSending? || pc.PPace?
  }

  /** The steps that write the log. */
  predicate Handles(s: State) {
    InHand(s.pacer) && ((s.pacer.pc.PMuted? && s.flags.muted) || s.pacer.pc.PSend? || s.pacer.pc.PPace?)
  }

  function HandleStep(s: State): State
    requires Handles(s)
  {
    match s.pacer.pc
    case PMuted => Handled(s, true, PPace)
    case PSend => Handled(s, false, PSending)
    case PPace => Paced(s)
  }

  predicate PacerEnabled(s: State) {
    match s.pacer.pc
    case PFirst => s.chan != [] || s.reader.pc.RDone?
    case PSending => false
    case PJoin(slept, received) => slept && received
    case PDone => false
    case pc => Holding(pc) ==> InHand(s.pacer)
  }

  function PacerStep(s: State): State
    requires PacerEnabled(s)
  {
    if Handles(s) then HandleStep(s)
    else if Walks(s.pacer.pc) then s.(pacer := PacerWalk(s.pacer, s.flags, s.now))
    else match s.pacer.pc
      case PFirst => Received(s, PLoop)
      case PTake => Take(s)
      case _ => EndStep(s)
  }

  predicate Enabled(s: State, e: Event) {
    match e
    case Reader => ReaderEnabled(s)
    case ReadStalls => s.reader.pc.RRead?
    case Pacer => PacerEnabled(s)
    case Sent(_) => s.pacer.pc.PSending?
    case SleepEnds => s.pacer.pc.PJoin? && !s.pacer.pc.slept && s.now >= s.pacer.deadline
    case Receive => s.pacer.pc.PJoin? && !s.pacer.pc.received && (s.chan != [] || s.reader.pc.RDone?)
    case _ => true
  }

  function Called(s: State, call: Request): (t: State)
    ensures t == s.(flags := t.flags, onEnd := t.onEnd)
  {
    match call
    case Pause => s.(flags := s.flags.(paused := true))
    case Resume => s.(flags := s.flags.(paused := false))
    case SetMuted(b) => s.(flags := s.flags.(muted := b))
    case OnEnd(callback) => s.(onEnd := Some(callback))
    case Start => s.(flags := s.flags.(running := true))
    case StopClearsCallback => s.(onEnd := None)
    case StopClearsRunning => s.(flags := s.flags.(running := false, everStopped := true))
  }

  function Apply(s: State, e: Event): State
    requires Enabled(s, e)
  {
    match e
    case Tick(d) => s.(now := s.now + d)
    case Caller(call) => Called(s, call)
    case Reader => ReaderStep(s)
    case ReadStalls => s.(reader := AfterRead(s.reader, Err(Internal)))
    case Pacer => PacerStep(s)
    case Sent(None) => s.(pacer := s.pacer.(pc := PPace))
    case Sent(Some(e)) => EndConsuming(s, SendFailed(e))
    case SleepEnds => s.(pacer := s.pacer.(pc := s.pacer.pc.(slept := true)))
    case Receive => Received(s, s.pacer.pc.(received := true))
  }

  // ----- Runs -----

  ghost predicate Possible(s: State, es: seq<Event>)
    decreases |es|
  {
    es == [] || (Enabled(s, es[0]) && Possible(Apply(s, es[0]), es[1..]))
  }

  ghost function Run(s: State, es: seq<Event>): State
    requires Possible(s, es)
    decreases |es|
  {
    if es == [] then s else Run(Apply(s, es[0]), es[1..])
  }

  // ----- Conservation -----

  ghost predicate AllOk(items: seq<Item>) {
    forall i :: 0 <= i < |items| ==> items[i].Ok?
  }

  /** What the reader has delivered so far agrees with its source, but for a final stall. */
  ghost predicate Faithful(source: seq<Item>, read: seq<Item>) {
    && |read| <= |source| + 1
    && forall i :: 0 <= i < |read| ==>
         (i < |source| && read[i] == source[i]) || (i == |read| - 1 && read[i] == Err(Internal))
  }

  /** No sample is lost, duplicated or reordered between the reader and the pacer, and the
      channel keeps its bound. */
  ghost predicate Flow(s: State) {
    && s.reader.read == s.hist.consumed + s.pacer.held + s.chan + InReader(s.reader.pc)
    && |s.chan| <= CAPACITY
  }

  /** An error is the last thing read, and ends the reader. */
  ghost predicate ErrorsLast(r: ReaderTask) {
    && (r.read != [] ==> AllOk(r.read[..|r.read| - 1]))
    && (r.pc.RDone? || r.pc.RSend? || AllOk(r.read))
    && (r.pc.RSend? ==> r.read != [] && r.read[|r.read| - 1] == r.pc.item)
    && Faithful(r.source, r.read)
  }

  /** What the pacing task has in hand. */
  ghost predicate Hand(p: PacerTask) {
    && |p.held| <= 1
    && (Holding(p.pc) ==> InHand(p))
    && (p.pc.PFirst? || (p.pc.PJoin? && !p.pc.received) ==> p.held == [])
  }

  ghost predicate Conserved(s: State) {
    Flow(s) && ErrorsLast(s.reader) && Hand(s.pacer)
  }

  lemma ReadKeepsOrder(r: ReaderTask, item: Item)
    requires ErrorsLast(r) && r.pc.RRead?
    requires item == Err(Internal) || (|r.read| < |r.source| && item == r.source[|r.read|])
    ensures ErrorsLast(AfterRead(r, item))
  {
    assert (r.read + [item])[..|r.read|] == r.read;
    assert r.read != [] ==> r.read[|r.read| - 1].Ok?;
  }

  lemma SentKeepsOrder(r: ReaderTask, pc: ReaderPc)
    requires ErrorsLast(r) && r.pc.RSend?
    requires pc.RDone? || (pc.RLoop? && r.pc.item.Ok?)
    ensures ErrorsLast(r.(pc := pc))
  {
    assert r.read == r.read[..|r.read| - 1] + [r.read[|r.read| - 1]];
  }

  lemma ReaderFlows(s: State)
    requires Flow(s) && ReaderEnabled(s)
    ensures Flow(ReaderStep(s))
  {
    var front := s.hist.consumed + s.pacer.held;
    match s.reader.pc
    case RRead => assert front + s.chan + [] == front + s.chan;
    case RSend(item) => assert front + s.chan + [item] == front + (s.chan + [item]) + [];
    case _ =>
  }

  lemma ReaderOrders(s: State)
    requires ErrorsLast(s.reader) && ReaderEnabled(s)
    ensures ErrorsLast(ReaderStep(s).reader)
  {
    var r := s.reader;
    match r.pc
    case RRead => ReadKeepsOrder(r, r.source[|r.read|]);
    case RSend(_) => SentKeepsOrder(r, ReaderStep(s).reader.pc);
    case _ =>
  }

  lemma ReceiveFlows(s: State, pc: PacerPc)
    requires Flow(s) && s.pacer.held == []
    ensures Flow(Received(s, pc)) && |Received(s, pc).pacer.held| <= 1
  {
    if s.chan != [] {
      assert s.chan == [s.chan[0]] + s.chan[1..];
    }
  }

  lemma PacerFlows(s: State)
    requires Flow(s) && Hand(s.pacer) && PacerEnabled(s)
    ensures Flow(PacerStep(s))
  {
    assert s.hist.consumed + s.pacer.held + [] == s.hist.consumed + s.pacer.held;
    if s.pacer.pc.PFirst? {
      ReceiveFlows(s, PLoop);
    }
  }

  lemma PacerHand(s: State)
    requires Hand(s.pacer) && PacerEnabled(s)
    ensures Hand(PacerStep(s).pacer)
  {
  }

  lemma ReaderConserves(s: State)
    requires Conserved(s) && ReaderEnabled(s)
    ensures Conserved(ReaderStep(s))
  {
    ReaderFlows(s);
    ReaderOrders(s);
  }

  lemma StallConserves(s: State)
    requires Conserved(s) && s.reader.pc.RRead?
    ensures Conserved(s.(reader := AfterRead(s.reader, Err(Internal))))
  {
    var front := s.hist.consumed + s.pacer.held + s.chan;
    ReadKeepsOrder(s.reader, Err(Internal));
    assert front + [] == front;
  }

  lemma PacerConserves(s: State)
    requires Conserved(s) && PacerEnabled(s)
    ensures Conserved(PacerStep(s))
  {
    PacerFlows(s);
    PacerHand(s);
  }

  lemma ReceiveConserves(s: State)
    requires Conserved(s) && s.pacer.pc.PJoin? && !s.pacer.pc.received
    ensures Conserved(Received(s, s.pacer.pc.(received := true)))
  {
    ReceiveFlows(s, s.pacer.pc.(received := true));
  }

  lemma EndConserves(s: State, reason: Reason)
    requires Conserved(s)
    ensures Conserved(EndConsuming(s, reason))
  {
    assert s.hist.consumed + s.pacer.held + [] == s.hist.consumed + s.pacer.held;
  }

  /** Steps that move only the clock, flags, or where the pacing task is with the same thing in hand. */
  lemma RestConserves(s: State, t: State)
    requires Conserved(s) && t.reader == s.reader && t.chan == s.chan && t.hist == s.hist
    requires t.pacer.held == s.pacer.held && Hand(t.pacer)
    ensures Conserved(t)
  {
  }

  lemma {:induction false} ConservedStep(s: State, e: Event)
    requires Conserved(s) && Enabled(s, e)
    ensures Conserved(Apply(s, e))
  {
    match e
    case Reader => ReaderConserves(s);
    case ReadStalls => StallConserves(s);
    case Pacer => PacerConserves(s);
    case Receive => ReceiveConserves(s);
    case Sent(None) => RestConserves(s, Apply(s, e));
    case Sent(Some(error)) => EndConserves(s, SendFailed(error));
    case SleepEnds => RestConserves(s, Apply(s, e));
    case Caller(call) => RestConserves(s, Called(s, call));
    case Tick(d) => RestConserves(s, Apply(s, e));
  }
}
