# rusttgcalls: outgoing media path, verified

A Dafny model of the path media takes out of rusttgcalls, and of the small stateful pieces around
it: container bytes are demultiplexed into frames, a two-task streamer paces the frames, the
transport numbers and stamps RTP packets; beside it stand the stderr ring, the ffmpeg command-line
rewriting, SSRC allocation and the reporting of stream ends.

Each imperative piece of the program is a class or a method with the program's own fields and
loops. Its contract ties the new state to a function of the old one, and the theorems are about
that function, over every input, every history or every interleaving.

| file | models |
|---|---|
| Media.dfy | bytes, samples, errors, shared sequence facts |
| OpusTiming.dfy, VideoTiming.dfy | frame durations and RTP clock increments |
| OggDemux.dfy, OggMux.dfy, OggLedger.dfy | the Ogg/Opus reader; an independent muxer and what the reader makes of it; where every byte is after any number of calls |
| IvfDemux.dfy | the IVF/VP8 reader and a muxer |
| Streamer.dfy, StreamerSafety.dfy, StreamerRuns.dfy | the reader and pacing tasks as interleaved atomic steps; what every step keeps; theorems over runs |
| StreamerTiming.dfy | runs that keep their schedule; a run that uses up the slack |
| StreamerCallers.dfy | what pause, stop, mute, resume, start and on_end promise over every continuation |
| StreamerEnding.dfy | why tasks never block each other for good, keep going while they run, end when stopped, and what the callback is told |
| StreamerTasks.dfy | the Streamer object: the callers' methods and the two task loops on its fields, statement by statement a run |
| RtpTransport.dfy, RtpTrace.dfy, RtpNumbering.dfy | the sending side of DirectTransport; counters and numbering over any history |
| RtpReports.dfy | which sender reports are sent and what they show; what sends answer; closing |
| RtpSharing.dfy | one sender among several on a track |
| RtpOverlap.dfy | video sends that overlap, and reports that read the counters in between |
| NtpClock.dfy | NTP time and the abs-send-time extension |
| RingBuffers.dfy | the byte ring |
| ShellSource.dfy | tokenizer, seek injection, flag injection |
| ShellWords.dfy, ShellFlags.dfy | what the tokens of any line are; what ffmpeg is told by an ensured line |
| SsrcFactory.dfy | SSRC allocation |
| StreamEnds.dfy, StreamSlots.dfy, GroupCalls.dfy | end-of-source reports, slots and running streamers across source switches, interleaved; set_source and stop as straight-line methods |
| Pipeline.dfy | what a reader and a streamer make of a source, and what any history of the transport leaves of it on the wire |
| Outgoing.dfy | streamer and transport as one machine; the whole path, audio and video, end to end |

Assumptions. Atomics are sequentially consistent. The clock never goes back and a sleep never
returns early. Time passes by any amount between any two steps. A frame reader is any list of
results, each call taking the next one, or the stall timeout. Reads of the byte stream return the
bytes delivered before the end of input or before an I/O error, and a failed `read_exact` has used
them up.

Results about the code that a reader may not expect:

- An Ogg stream without its two metadata packets loses its first packet exactly when that packet
  starts like one of them (`BareStream`).
- Audio takes a sequence number and clock ticks even when nothing is sent, and a failed video frame
  takes some; so numbers on the wire run on without a gap exactly when, before every call that sends,
  a multiple of 65 536 numbers has been wasted (`ConsecutiveIff`). In the first turn of the counter
  that means none (`WasteLastInTurn`); a whole turn wasted leaves no trace (`TurnLeavesNoGap`).
- `GapOnTheWire` is a history with a gap between two packets on the wire.
- A send that finds the link down is answered with success and leaves a hole: what reaches the wire
  after it has the number and the timestamp it would have had anyway (`AudioWire`, `AudioEndToEnd`).
- A track is shared: with the streamer that is replaced, which may still send one frame, and with
  keepalive frames. Their sends take numbers and push the clock on, so a stream's timestamps are its
  own running sum exactly when the others' ticks before are a multiple of 2^32 (`OwnTimeIff`); a
  keepalive frame pushes the video clock 5940 ticks on (`KeepalivesShift`).
- Overlapping video sends may mix their packets on the wire; in the order of their numbers the frames
  are whole (`ReorderedIsWhole`). A sender report may trail what was handed over, by at most one packet
  for each send under way (`EveryRunIsAccounted`).
- A stopped call can still report the end of a source: exactly when a set_source was let in before the
  stop and is still waiting (`StopSilencesIff`, `ReportsAfterStop`).
- A muted frame keeps its slot on the streamer's clock but takes no ticks of the RTP clock: timestamps
  count the frames sent, not the time gone by (`AudioEndToEnd`).
- A quoted empty argument is dropped by the tokenizer (`TokenizePrinted`); a backslash that escapes neither
  a quote nor a backslash is kept, and an open quote runs to the end of the line (`TokensAreWords`).
- The audio settings end the command line, so they win over whatever the line says of rate, channels and
  durations; but any `-f` in it, on the input side too, leaves the output container to ffmpeg
  (`AudioSettings`).
- A reader that meets 27 bytes that are no Ogg page header, or 32 that are no IVF header, gives them up and
  looks again behind them on the next call; the streamer never makes that call (`AfterError`).
- The end of the input is reported to the end callback as an error; no error is reported only after a stop
  (`ReportTells`).
- A seek keeps the command line from the first `-i` on that has an even number of `-ss` right before it;
  the others are taken for values. Where there is none, the seek swallows the first output flag exactly
  when an odd number of `-ss` stands right before the flags (`SeekKeepsOutput`); so it does on
  `ffmpeg -ss` (`SeekSwallowsCodec`).
- `ensure_ffmpeg_flags` is idempotent exactly for tracks without audio (`EnsureIdempotentIff`).
- NTP times keep their order exactly inside one era (`OrderKeptIff`).
- With two stacks made at once, the partner SSRC announced by one is given to the other exactly when
  the draw right after its video draw is the other's first or second (`PartnerTakenIff`).
- A frame after a pause gets a deadline of its own, so the time paused is not made up for
  (`AfreshRun`); a pacing loop that has ended is not started again by `start` (`EndedForGood`).
- The stall timeout is 60 s (media/streamer.rs:19) although its message speaks of 30 s
  (media/streamer.rs:99-100); the model follows the code and lets the timeout strike at any time.

## Model

| member | source | states |
|---|---|---|
| Outgoing.AudioEndToEnd | media/frame_reader.rs:79-135 | any Ogg/Opus stream (header and tags packet by their literal signatures, payload type 111), paged any way, cut off anywhere, and anything that happens to streamer and transport, lost links and other senders on the track included: of the packets not muted all but one are accepted, and those that reached the wire are there in order, packet k numbered by its place among all sends of the track and stamped ts0 + the Opus samples of the k before + the others' ticks |
| Outgoing.EveryRunIsLinked | media/streamer.rs:153-158 | streamer and transport as one machine: the streamer's part is one of its own runs; what it sent is what the transport accepted, in order, but for one under way or refused; it has given up over a send iff the last answer was an error |
| Outgoing.SendFailsIff | media/streamer.rs:155-158 | a send ends the loop iff the transport is closed or refuses it |
| Outgoing.UndisturbedRun | wrtc/native/direct_transport.rs:561-723 | with nobody else on the track the streamer's sends are all the accepted ones |
| Pipeline.AudioOnWire | wrtc/native/direct_transport.rs:594-645 | the same from the samples sent, given which accepted sends are the streamer's; the timestamp is its own running sum iff the others' ticks before are 0 mod 2^32 |
| Pipeline.AudioAlone | wrtc/native/direct_transport.rs:594-645 | alone on the track, packet k has number seq0 + k and the exact sample-count timestamp, across dropped sends |
| Pipeline.AudioInFull | wrtc/native/direct_transport.rs:619-645 | alone, with the link up and no failure the wire is a prefix of the packets, packet k in place k |
| Pipeline.StreamedInOrder | media/streamer.rs:75-176 | what a run hands to the transport are the reader's samples at the positions not muted, in order; never muted, a prefix |
| Outgoing.VideoEndToEnd | media/frame_reader.rs:156-203 | any IVF file, cut off anywhere, and anything that happens to streamer and transport, other senders on the track included: of the frames not muted, those that reach the wire come back whole and in order, frame k stamped ts0 + k steps + the others' ticks, the k steps within k roundings of 90000 k num / den; numbers without a gap iff the sends are in step |
| Pipeline.VideoOnWire | wrtc/native/direct_transport.rs:646-720 | the same from the samples sent, given which accepted sends are the streamer's: data, order, timestamp of every chunk, numbering, final clock |
| Pipeline.VideoInFull | wrtc/native/direct_transport.rs:651-720 | with the link up at every send and no failure no frame of the streamer with bytes in it is missing |
| Pipeline.ExactStep | wrtc/native/direct_transport.rs:648-650 | the clock step is 90000 num / den itself whenever that is whole |
| OggDemux.OpusFrameReader.NextSample | media/frame_reader.rs:79-135 | one call: result and all fields as `Next` says |
| OggDemux.OpusFrameReader.ReadOggPage | media/frame_reader.rs:89-111 | header, segment table and payload of a page, with each error and what it leaves unread |
| OggDemux.OpusFrameReader.Lacing | media/frame_reader.rs:113-133 | the segment loop computes `Segments`; its guard on `end` never fails |
| Media.ReadExact | media/frame_reader.rs:90-110 | an exact read: the next n bytes, or failure with the input used up |
| OggDemux.OpusFrameReader.constructor | media/frame_reader.rs:68-76 | a reader starts with nothing read, queued or skipped |
| OggDemux.Next | media/frame_reader.rs:80-134 | a successful call consumes input or queue, so calls terminate |
| OggDemux.SegmentsUnlace | media/frame_reader.rs:113-133 | the in-place loop equals unlacing by RFC 3533 followed by the header/tags/empty filter |
| OggDemux.PageOwed | media/frame_reader.rs:89-133 | reading a page only moves packets from the owed input to the queue |
| OggDemux.DrainIsOwed | media/frame_reader.rs:79-135 | repeated calls depend only on the joined tables and payloads, not on page boundaries, from any reader state |
| OggMux.EveryListMuxes | media/frame_reader.rs:89-133 | every packet list has a paging, one segment a page among others |
| OggMux.DrainMuxedThen | media/frame_reader.rs:89-111 | the same with input after the last page that is not a whole page; Internal iff 27 bytes not beginning with 4F 67 67 53 follow, else File |
| OggMux.DrainMuxed | media/frame_reader.rs:79-135 | any packets muxed any way: exactly the packets the filter lets through, then a File error |
| OggMux.AfterError | media/frame_reader.rs:89-111 | input that ends inside a page is used up, for good; 27 bytes without the magic are given up and the next call goes on behind them |
| OggMux.DemuxInvertsMux | media/frame_reader.rs:79-135 | header, tags, then any packets: exactly the non-empty ones come back, even if they begin with OpusHead |
| OggMux.PlayingDelivers | media/frame_reader.rs:123-131 | after the first audio packet only empty packets are dropped |
| OggMux.BareStream | media/frame_reader.rs:123-131 | without metadata packets all packets come back iff the first does not look like one |
| OggMux.DrainConservesBytes | media/frame_reader.rs:107-131 | delivered + dropped + open bytes = payload bytes of the pages read, for any input; at most two non-empty packets dropped |
| OggLedger.CallsConserveBytes | media/frame_reader.rs:79-135 | after any number of calls on any input, failed calls among them: handed out + queued + dropped + open bytes = payload bytes read |
| OggLedger.BalancedCall | media/frame_reader.rs:79-135 | every call keeps packets handed out and queued, flags and open packet in agreement with the pages read |
| OggMux.UnlaceConserves | media/frame_reader.rs:113-122 | completed packets and the open one are the payload, byte for byte |
| OggMux.TruncationIsPrefix | media/frame_reader.rs:91-111 | cutting any input short only shortens the sample list |
| OpusTiming.OpusTimingExact | media/frame_reader.rs:28-63 | the RTP increment recomputed from the duration is the sample count of RFC 6716; no overflow in u32 or u64 |
| OpusTiming.TableAgreesWithStandard | media/frame_reader.rs:34-46 | the program's table equals the standard's frame sizes for all 32 configurations |
| OpusTiming.NanosRoundTrip | wrtc/native/direct_transport.rs:596-597 | the two floor divisions undo each other iff the sample count is a multiple of three |
| VideoTiming.TickError | wrtc/native/direct_transport.rs:648-650 | increment within [-(1/2 + 9/100000), +1/2] tick of 90000 num / den |
| VideoTiming.TickExact | media/frame_reader.rs:168-172 | the increment is exact iff den divides 90000 num |
| VideoTiming.DriftBound | wrtc/native/direct_transport.rs:648-650 | n-frame drift at most n times that; zero iff one increment is exact |
| IvfDemux.VP8FrameReader.NextSample | media/frame_reader.rs:156-203 | one call: result and all fields as `Next` says |
| IvfDemux.VP8FrameReader.ReadIvfHeader | media/frame_reader.rs:157-175 | the header part of a call: nothing once it is read, else its two errors or the duration |
| IvfDemux.VP8FrameReader.constructor | media/frame_reader.rs:147-153 | a reader starts before its header with the default duration |
| IvfDemux.LeRoundTrip | media/frame_reader.rs:168-169 | little-endian decoding inverts encoding for every u32 |
| IvfDemux.LittleEndian | media/frame_reader.rs:168-169 | byte i counts 256^i, for any four bytes, and encoding inverts decoding |
| IvfDemux.DurationOfHeader | media/frame_reader.rs:168-173 | num/den seconds in nanoseconds, rounded down; 33 333 333 if either is zero |
| IvfDemux.HeaderThenFrames | media/frame_reader.rs:157-175 | the 32-byte header is consumed once and fixes the duration of every frame |
| IvfDemux.DemuxInvertsMux | media/frame_reader.rs:156-203 | any timebase and frames, empty ones included: exactly the frames, constant duration, then a File error |
| IvfDemux.NotAFile | media/frame_reader.rs:158-167 | fewer than 32 bytes: a File error; 32 not beginning with 44 4B 49 46: an Internal error; no frame either way |
| IvfDemux.EveryFile | media/frame_reader.rs:156-203 | every other input is a header, whole frames and less than one frame more: exactly those frames come back, then a File error |
| IvfDemux.AfterError | media/frame_reader.rs:158-187 | a file cut off is used up and stays so; 32 bytes that are no header are given up and the next call looks for one behind them |
| IvfDemux.TruncationIsPrefix | media/frame_reader.rs:178-187 | cutting any input short only shortens the frame list |
| StreamerRuns.EveryRunIsSafe | media/streamer.rs:75-184 | in every run: read = consumed ++ held ++ channel ++ with the reader, channel at most 256, errors last, log, clock, endings and report invariants |
| Streamer.ConservedStep | media/streamer.rs:75-176 | every step keeps sample conservation, the channel bound and errors last |
| StreamerSafety.LoggedStep | media/streamer.rs:129-163 | every step keeps: each sample consumed was handled once, in order |
| StreamerSafety.ClockedStep | media/streamer.rs:145-175 | every step keeps the deadline recurrence, its monotonicity, the resync condition and ns_sent |
| StreamerSafety.EndingsStep | media/streamer.rs:80-140 | every step keeps how the reader and the loop can end |
| StreamerSafety.ReportedStep | media/streamer.rs:178-183 | the callback is taken and called at most once |
| StreamerRuns.HandledIsPrefix | media/streamer.rs:75-176 | frames handled are a prefix of the source's samples |
| StreamerRuns.LoopEnds | media/streamer.rs:115-140 | a source error ends the loop only after every earlier sample was handled; other ends need a stop or a failed send |
| StreamerRuns.SentIsPrefix | media/streamer.rs:153-159 | without muting the samples sent are a prefix of the source's |
| StreamerRuns.AtMostOneAfterBlocking | media/streamer.rs:117-134 | after a pause or stop, until resume, at most one further sample is sent |
| StreamerRuns.StoppedBeforeTaken | media/streamer.rs:178-220 | a streamer stopped before its callback is taken never reports |
| StreamerRuns.NoBurst | media/streamer.rs:145-175 | play time of frames i+1..j at most elapsed time + 100 ms, across pauses and resyncs |
| StreamerRuns.RunNeverBursts | media/streamer.rs:145-175 | the same in every run, with the bound written out: 100 000 000 ns |
| StreamerTiming.SlackReached | media/streamer.rs:165-171 | a run from the start that reaches the 100 ms bound |
| StreamerTiming.ChannelFills | media/streamer.rs:72-107 | the reader runs ahead as far as 256 samples |
| StreamerRuns.LatenessBounded | media/streamer.rs:110-175 | under timely handling frame k goes out within [base + earlier durations, that + e]; no resync |
| StreamerTiming.RunKeepsSchedule | media/streamer.rs:110-175 | from conditions on the events alone (no pause; a send within the frame's play time; sleep, next sample and loop tests within a slip of at most 100 ms): every frame of the run on time, no resync |
| StreamerTiming.TimelyStep | media/streamer.rs:110-175 | every such event keeps the run on schedule |
| StreamerCallers.MutedRun | media/streamer.rs:153-159 | muted, until unmuted, only a frame already past the mute test is sent |
| StreamerCallers.ReaderWaitsRun | media/streamer.rs:81-88 | from a pause until resume, and from a stop on, the reader reads nothing more but for the one read it was about to make |
| StreamerCallers.FirstFrameAfresh | media/streamer.rs:145-151 | the first frame of every run has a deadline of its own, not before the start |
| StreamerCallers.PauseStartsAfresh | media/streamer.rs:118-124 | a pause found by the pacing task gives the next frame a deadline of its own in every continuation |
| StreamerCallers.DoneMeansEnded | media/streamer.rs:178-179 | in every run the done flag is set iff the task is past the end of its loop |
| StreamerCallers.PromisedRun | media/streamer.rs:178-227 | a callback registered before the end is called exactly once, when the task is done, unless replaced or cleared |
| StreamerCallers.AfreshRun | media/streamer.rs:118-151 | after a wait the next frame has a new deadline, no earlier than the wait |
| StreamerCallers.EndedForGood | media/streamer.rs:177-192 | a pacing loop that has ended handles no frame again, whatever is called |
| StreamerEnding.ReportTells | media/streamer.rs:138-182 | in every run the callback is told a send error iff a send failed, with its error; a source error only after every sample before it was handled; no error only after a stop |
| StreamerEnding.Released | media/streamer.rs:180-180 | once taken, no callback is held unless a new one is registered |
| StreamerEnding.NeverStuck | media/streamer.rs:75-184 | in every run, until both tasks are done one of them can move, at once or when the frame in hand has played out |
| StreamerEnding.StoppedRun | media/streamer.rs:80-133 | stopped and not started again, paused or not: the reader makes at most 3 more steps, the pacing task at most 13 |
| StreamerEnding.GoingRun | media/streamer.rs:80-176 | running and not paused: of any 5 reader steps one is a read, of any 13 pacing steps one handles a frame, until they are done |
| StreamerTasks.Streamer.constructor | media/streamer.rs:57-117 | the state both tasks start from, with an empty run |
| StreamerTasks.Streamer.Start | media/streamer.rs:190-192 | a step of the run; nothing changes unless someone stopped the streamer; an ended loop stays ended in every continuation |
| StreamerTasks.Streamer.Pause | media/streamer.rs:195-197 | a step of the run; in every continuation without resume or start at most one more frame is sent, and the reader reads at most the one sample it was about to |
| StreamerTasks.Streamer.Resume | media/streamer.rs:199-202 | a step of the run; if the pacing task is waiting, in every continuation the next frame has a new deadline, not before the resume; a running streamer reads and plays on, by steps counted, until paused or stopped |
| StreamerTasks.Streamer.SetMuted | media/streamer.rs:204-206 | a step of the run; muted, in every continuation that does not unmute at most a frame already past the mute test is sent |
| StreamerTasks.Streamer.OnEnd | media/streamer.rs:222-227 | a step of the run; registered in time, in every continuation that neither replaces nor clears it the callback is called exactly once by the end of the task |
| StreamerTasks.Streamer.Stop | media/streamer.rs:216-220 | two steps of the run with anyone's moves in between; in every continuation at most one more frame and one more read, both tasks at rest within 3 and 13 steps unless started again, and no report if the callback was not taken yet |
| StreamerTasks.Streamer.ReaderTask | media/streamer.rs:80-108 | the reader's loop, others moving between its statements: every statement a step of the run, the state where `Plays` says after the turns used; it ends only by a stop, a lost receiver or an error passed on; what the steps do when paused is ReaderWaitsRun |
| StreamerTasks.Streamer.PacingTask | media/streamer.rs:111-184 | the pacing loop likewise, to the report at its end: handled frames a prefix of the source, all samples before a source error handled, the done flag set, one report at most |
| RtpTransport.DirectTransport.constructor | wrtc/native/direct_transport.rs:128-160 | the initial counters, drawn sequence numbers and empty wire |
| RtpTransport.DirectTransport.SendRtpBytes | wrtc/native/direct_transport.rs:561-723 | one send: all fields and the packets handed to the socket as `MediaStep` says, the result as `Answer` says; closed means an error and no change |
| RtpTransport.DirectTransport.EstablishEpoch | wrtc/native/direct_transport.rs:571-588 | the first send sets the epoch and reports |
| RtpTransport.DirectTransport.EmitRtcpSenderReports | wrtc/native/direct_transport.rs:503-546 | one report a track from the current counters, none for a report that cannot be built or encrypted; what they show is EveryReportTimed and CountersMatchHistory |
| RtpTransport.DirectTransport.RtcpTick | wrtc/native/direct_transport.rs:371-411 | the worker's timer sends the same reports on its own socket |
| RtpTransport.DirectTransport.SendAudioBytes | wrtc/native/direct_transport.rs:594-645 | the audio branch |
| RtpTransport.DirectTransport.SendVideoFrame | wrtc/native/direct_transport.rs:646-720 | the video branch with its early returns |
| RtpTransport.DirectTransport.NumberChunks | wrtc/native/direct_transport.rs:679-712 | the numbering loop: one number a chunk, marker on the last, numbers lost on failure |
| RtpTransport.DirectTransport.SendAll | wrtc/native/direct_transport.rs:715-719 | the sending loop: every packet in order, counters moved by it |
| RtpTransport.DirectTransport.ResetMediaTrackState | wrtc/native/direct_transport.rs:550-559 | a reset touches markers and epoch only |
| RtpTransport.DirectTransport.CloseTransport | wrtc/native/direct_transport.rs:731-745 | closing, idempotently |
| RtpTrace.CountersMatchHistory | wrtc/native/direct_transport.rs:510-523 | over any history of whole sends, counters and every sender report equal packets and octets handed to the socket, mod 2^32 |
| RtpTrace.CountersStep | wrtc/native/direct_transport.rs:634-719 | every operation keeps this |
| RtpReports.WhichReports | wrtc/native/direct_transport.rs:503-588 | an operation reports iff it is the first send accepted without an epoch, with cipher and socket, or the timer with an epoch and a cipher: one report for each track that can be sealed, audio first |
| RtpReports.EpochIff | wrtc/native/direct_transport.rs:550-580 | the epoch is there iff a send was accepted since the start, a reset or a close |
| RtpReports.EpochTimed | wrtc/native/direct_transport.rs:571-580 | it holds the clock reading of such a send and both tracks' timestamps there |
| RtpReports.EveryReportTimed | wrtc/native/direct_transport.rs:505-523 | over any history every report shows the clock reading of its operation and, as RTP time, ts0 + the ticks of all calls its track accepted before it |
| RtpReports.AnswerMeans | wrtc/native/direct_transport.rs:561-723 | link up: success iff all payloads go on the wire; an error puts none there; link down: an error only for a packet that cannot be made or a frame that cannot be cut; 111 is audio |
| RtpReports.CloseIsFinal | wrtc/native/direct_transport.rs:561-745 | after a close, whatever is asked: nothing more on the wire, every send answered with an error |
| RtpNumbering.WireLaw | wrtc/native/direct_transport.rs:594-720 | over any history a track's packets and fields are a closed form of the calls accepted |
| RtpNumbering.OtherStep | wrtc/native/direct_transport.rs:550-559 | no other operation moves a track's numbers; a reset only asks for a marker |
| RtpNumbering.ConsecutiveIff | wrtc/native/direct_transport.rs:595-684 | for any calls, over any number of turns of the counter: numbers without a gap iff before every call that sends a multiple of 65 536 numbers is wasted |
| RtpNumbering.WasteLastInTurn | wrtc/native/direct_transport.rs:595-684 | waste that comes last leaves no gap; inside the first turn nothing else does |
| RtpNumbering.TurnLeavesNoGap | wrtc/native/direct_transport.rs:595-645 | n audio calls that send nothing, then one that does: no gap iff 65 536 divides n |
| RtpNumbering.GapOnTheWire | wrtc/native/direct_transport.rs:595-645 | a history from the start with numbers 0 and 2 on the audio wire |
| RtpNumbering.UnhinderedCalls | wrtc/native/direct_transport.rs:594-720 | with the link up at every accepted send and nothing failing, all payloads go on the wire |
| RtpSharing.TicksSplit | wrtc/native/direct_transport.rs:594-650 | the clock before a send is the sender's own ticks and the others' |
| RtpSharing.OwnTimeIff | wrtc/native/direct_transport.rs:596-598 | a timestamp is the sender's own running sum iff the others' ticks are whole turns of the clock |
| RtpSharing.KeepalivesShift | wrtc/keepalive.rs:66-75 | n keepalive frames push the video clock 5940 n ticks on |
| RtpOverlap.EveryRunIsAccounted | wrtc/native/direct_transport.rs:646-720 | any overlap of video sends and reports: counts loaded are packets and octets handed over less those not counted yet, at most one packet a call under way; frames whole in number order; no packet lost, doubled or made up |
| RtpOverlap.CountingStep | wrtc/native/direct_transport.rs:510-523 | every atomic action keeps the account of the counters |
| RtpOverlap.ReorderedIsWhole | wrtc/native/direct_transport.rs:673-719 | however sends overlapped, the packets in number order give every frame whole, in the order numbered (within one turn of the counter) |
| RtpNumbering.WireConsecutiveIff | wrtc/native/direct_transport.rs:594-720 | the same over any history of any length, through resets, lost links and source switches |
| RtpNumbering.AudioWire | wrtc/native/direct_transport.rs:594-645 | packets lost or not: packet j is the j-th call that reached the wire, numbered and stamped by its place among all calls |
| RtpNumbering.ReachedExactly | wrtc/native/direct_transport.rs:619-645 | the calls that reached the wire, in order, none missed |
| RtpNumbering.CallsCarry | wrtc/native/direct_transport.rs:594-720 | an accepted send moves the clock by its duration and puts all of its payloads on the wire, or none |
| RtpNumbering.FramesReached | wrtc/native/direct_transport.rs:647-719 | the frames on the wire are the calls that reached it, each under ts0 + the ticks before it |
| RtpNumbering.VideoPacketsFit | wrtc/native/direct_transport.rs:653-657 | a payloader that keeps to any limit a chunk (1180 bytes in the program) keeps every video packet of any history under it |
| RtpNumbering.VideoDepacketizes | wrtc/native/direct_transport.rs:647-719 | over any history, cutting after markers gives the chunk lists in order, one timestamp a frame, nothing left over |
| RtpNumbering.DepacketizeFrame | wrtc/native/direct_transport.rs:679-690 | one frame's packets close exactly one frame |
| NtpClock.OrderKeptIff | wrtc/native/direct_transport.rs:857-864 | readings less than an era apart keep their order strictly iff in one era |
| NtpClock.NtpTimeExact | wrtc/native/direct_transport.rs:857-864 | the 64-bit value is floor(seconds since 1900 * 2^32) without its era; 1900 to 1970 is 70 years with 17 leap days |
| NtpClock.AbsSendTimeExact | wrtc/native/direct_transport.rs:591-592 | the 24-bit field is floor(t * 2^18) mod 2^24 of the true reading |
| NtpClock.FractionStrict | wrtc/native/direct_transport.rs:862-862 | the fraction fits 32 bits and tells nanoseconds apart |
| RingBuffers.RingBuffer.constructor | utils/ringbuf.rs:19-28 | the capacity, 4096 for zero, and an empty ring |
| RingBuffers.RingBuffer.Write | utils/ringbuf.rs:47-75 | any length: the ring holds the last cap bytes ever written; `full` iff at least cap were |
| RingBuffers.RingBuffer.Snapshot | utils/ringbuf.rs:31-44 | exactly the last min(cap, total) bytes, in order |
| RingBuffers.WriteHolds | utils/ringbuf.rs:61-74 | the new head and flag are right in both the plain and the wrapping case |
| RingBuffers.LastAppend | utils/ringbuf.rs:53-59 | the tail of tail plus write is the tail of the whole |
| RingBuffers.WriteAll | utils/ringbuf.rs:31-75 | any sequence of writes, then a snapshot |
| ShellSource.TokenizeShell | media/shell_source.rs:354-392 | the loop computes `Scan`; no token is empty |
| ShellSource.TokenizePrinted | media/shell_source.rs:354-392 | tokenizing quoted arguments gives back the non-empty ones; all iff none is empty |
| ShellSource.TokenizeStable | media/shell_source.rs:354-392 | printing and reading again changes nothing |
| ShellWords.TokensAreWords | media/shell_source.rs:354-392 | words of characters, escaped quotes and backslashes and quote marks, apart and surrounded by any runs of space, tab and newline: the tokens are exactly their meanings, empty ones dropped |
| ShellWords.EveryLineReads | media/shell_source.rs:354-392 | every line whatever is of that form |
| ShellSource.InjectSeek | media/shell_source.rs:317-350 | the loop computes `Seek` |
| ShellSource.LastSeekWins | media/shell_source.rs:317-350 | a second seek replaces the first, for every argv |
| ShellSource.ParseBySurvivor | media/shell_source.rs:317-350 | what the rewrite keeps is decided by the first `-i` with an even number of `-ss` right before it |
| ShellSource.SeekStructure | media/shell_source.rs:317-350 | input side stripped of `-ss` pairs, one pair, then the command line verbatim from that `-i`; without one, the pair first, then all words stripped |
| ShellSource.StrippedPairs | media/shell_source.rs:323-334 | stripping takes out an `-ss` with its value, whatever it is, and nothing else; an `-ss` that ends the words stays |
| ShellSource.EnsureFfmpegFlags | media/shell_source.rs:188-290 | the program's loops and appends compute `Ensured` |
| ShellSource.FindFlags | media/shell_source.rs:199-224 | the loop finds each flag and the first `-i` |
| ShellFlags.AudioSettings | media/shell_source.rs:240-261 | with audio the last setting of each flag is: 48000 Hz, 2 channels, 20 ms frames, 20000 us pages, application audio, mapping family 0; `-f ogg` unless the line has `-f`, libopus unless it names an audio codec |
| ShellFlags.VideoSettings | media/shell_source.rs:262-273 | with video alone: `-f ivf` unless the line has `-f`; libvpx, real time, unless it names a video codec |
| ShellFlags.WordsKept | media/shell_source.rs:276-286 | every word but `pipe:1` stays in order; exactly the probe flags not given stand with their values right before the first `-i`, which is the same one |
| ShellFlags.WordsAdded | media/shell_source.rs:188-290 | nothing else is added: the length of the line |
| ShellSource.PipeOnceAndLast | media/shell_source.rs:284-288 | `pipe:1` occurs once, last |
| ShellSource.EnsureIdempotentIff | media/shell_source.rs:188-290 | idempotent iff the track has no audio |
| ShellSource.SeekKeepsOutput | media/shell_source.rs:188-350 | a seek leaves output flags alone: always if some `-i` of the words before them has an even number of `-ss` right before it, else iff an even number of `-ss` ends those words |
| ShellSource.OddSeeksDangle | media/shell_source.rs:317-350 | without a surviving `-i` an `-ss` is left without a value iff an odd number of them ends the line |
| ShellSource.SeekSwallowsCodec | media/shell_source.rs:136-151 | on `ffmpeg -ss` with audio the seek swallows `-c:a` |
| SsrcFactory.Factory.constructor | wrtc/native/factory.rs:40-44 | the seed is the random value made odd; nothing issued |
| SsrcFactory.Factory.AllocateSsrc | wrtc/native/factory.rs:98-105 | the next non-zero value, after one fetch, or two at zero |
| SsrcFactory.Factory.NewStack | wrtc/native/factory.rs:61-68 | one or three allocations in a row: audio the first, video the second, 0 without video |
| SsrcFactory.NthClosed | wrtc/native/factory.rs:98-105 | the k-th allocation in closed form |
| SsrcFactory.AllocationsDistinct | wrtc/native/factory.rs:98-105 | any 2^32 - 1 in a row pairwise distinct, one more repeats |
| SsrcFactory.FetchesDistinct | wrtc/native/factory.rs:100-100 | concurrent callers draw distinct values |
| SsrcFactory.ReservedSlot | wrtc/native/signaling.rs:48-52 | the discarded allocation is the announced partner, except at 2^32 - 1 |
| SsrcFactory.OwnNumbersDiffer | wrtc/native/factory.rs:61-68 | a stack's two SSRCs and the announced partner are three different numbers |
| SsrcFactory.PartnerReserved | wrtc/native/factory.rs:61-68 | in sequential runs no SSRC or partner collides with another stack's |
| SsrcFactory.PartnerTakenIff | wrtc/native/factory.rs:61-68 | for every interleaving of two stacks with video: the partner of one is an SSRC of the other iff the draw right after its video draw is the other's first or second (and the video SSRC is not 2^32 - 1) |
| SsrcFactory.ConcurrentPartnerCollides | wrtc/native/factory.rs:61-68 | an interleaving in which it is not |
| StreamEnds.OneEndPerSource | instances/group_call.rs:260-381 | every interleaving: at most one report a source, audio iff it has audio |
| StreamEnds.ValidStep | instances/group_call.rs:283-475 | every step of set_source, stop and the streamers keeps the invariant behind it |
| StreamEnds.UsedUpRun | media/streamer.rs:180-182 | every interleaving: a callback taken or called is held no longer |
| StreamEnds.SilencedRun | media/streamer.rs:178-220 | a streamer stopped before its callback is taken never reports |
| StreamEnds.ReplacedAreSilenced | instances/group_call.rs:286-294 | replacing a source silences its streamers unless a callback is already taken |
| StreamEnds.StopSilencesIff | instances/group_call.rs:454-475 | after stop nobody can report in any continuation iff no set_source was let in and is waiting |
| StreamEnds.ReportsAfterStop | instances/group_call.rs:265-324 | the run in which a stopped call reports the end of a source |
| StreamSlots.SlotsHoldTheLatest | instances/group_call.rs:260-381 | every interleaving, when no set_source is at work and the call is open: the slots hold exactly the latest source's streamers, None for a leg it lacks, and those alone run |
| StreamSlots.StopHaltsAll | instances/group_call.rs:454-475 | stop's two slot steps leave both slots empty and no streamer running; with no set_source waiting, for good |
| GroupCalls.GroupCall.SetSource | instances/group_call.rs:260-381 | the program's sequence of stops, creations and hooks is the uninterrupted run of the steps; audio slot and video slot hold the new streamers, None for a leg the source lacks; one reset of the media tracks; new audio paused iff muted or paused, new video iff paused; closed, or not connected in time: the error and no change |
| GroupCalls.GroupCall.Stop | instances/group_call.rs:454-475 | the first stop empties both slots, leaves nobody running or able to report, lifts pause and mute and has the stack closed; later ones do nothing |
| GroupCalls.OnlyNewSourceHooked | instances/group_call.rs:302-372 | afterwards the new source, and it alone, can report, with its kind |
| GroupCalls.OnlyNewSourceRuns | instances/group_call.rs:283-372 | afterwards the slots hold the new source's streamers and no other streamer runs |

## Left out

- Sockets, STUN, DTLS, SRTP, certificates, JSON, ffmpeg processes: outside the model or abstract inputs; SRTP is the identity on the wire, or fails where the model says so.
- Vp8Payloader is not part of this model: its chunks come with the operation; that they join to the frame is a hypothesis of VideoEndToEnd, that they keep to a limit one of VideoPacketsFit.
- Argument builders of media/transcode.rs, presets, validate_output_codec, models, key derivation: straight-line code.
- StreamerTasks.Streamer.ReaderTask and PacingTask: a task that goes on for ever is seen through its finite stretches; `turns` bounds one.
- In StreamEnds and StreamSlots Streamer::stop is one step; its two stores are apart in module Streamer.
- set_source interleavings are proved on values, step by step; the class GroupCalls.GroupCall makes those steps on fields, uninterrupted.
- StreamerEnding.NeverStuck, GoingRun: count a wait at the barrier as a step that can be made, though after unpausing one leg only the code can wait there for ever; a wait for the source ends by the stall timeout, a send by its answer. That a step which can be made is made is left to the scheduler.
- RtpTransport.DirectTransport.SendRtpBytes: one send is one step; overlapping video sends and reports are in RtpOverlap, without the link and the epoch. Two audio sends that take number and timestamp in opposite orders are not modelled.
- RtpOverlap.ReorderedIsWhole: a receiver with a window over more than one turn of the counter is not modelled; without that bound EveryRunIsAccounted gives the packets as a permutation of the frames in order.
- A track stands for its SSRC: the case that the two random SSRCs of DirectTransport::new coincide is not modelled.
- How the connection gate of set_source decides: its outcome is an input. Pause, resume and mute of the call, on_upgrade and the dispatcher's queue; handle_streamer_end, which nothing in the repository calls.
- "Audio leg paused iff muted or paused", RTMP position accounting, "closed is final" for the state field, drop-oldest in the dispatcher: the code does not keep them.
- ShellSource.TokenizeShell: works on the bytes widened one by one, as the code does; the meaning of non-ASCII text is not modelled.
- ShellSource.InjectSeek: the formatting of the offset to three decimals is an input.
- StreamerTiming.RunKeepsSchedule: says nothing of runs that pause or overrun their slips; RunNeverBursts does.
- Overflow of Instant + Duration, and usize narrower than 64 bits.
