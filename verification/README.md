# Printer host verification

A Dafny model of the host side of the printer firmware in `Firmware/Extracted/Updates/other/klippy`:
the chain from planned moves to bytes on a wire, with the properties it promises.
`dafny verify dfyconfig.toml` checks everything.

| file | what it models |
|---|---|
| `kinematics.dfy`, `planner.dfy`, `lookahead.dfy` | the look-ahead velocity planner of `toolhead.py`: its recurrences and what they promise, and the classes whose loop computes them |
| `trapq.dfy`, `toolhead.dfy` | the trapezoid motion queue, and the path of a move through the toolhead |
| `kin_extruder.dfy` | pressure advance and its smoothing integral |
| `stepsearch.dfy`, `steplog.dfy`, `stepcompress.dfy` | the step compressor: its search, the pulses its messages stand for, its queue, history and direction filter |
| `steppersync.dfy` | the scheduler of the micro-controller's move slots, with its in-place heap |
| `crc.dfy`, `vlq.dfy`, `msgblock.dfy` | CRC, variable-length integers, message blocks, resynchronisation, and the receive loop |
| `gobackn.dfy` | the sliding-window protocol as a transition system |
| `commandqueue.dfy`, `notify.dfy`, `serialqueue.dfy` | the host's serial queue, which behaves as that system's host, with its priorities and notifications |
| `clockestimate.dfy`, `trdispatch.dfy` | clock estimates, and trigger dispatch over several micro-controllers |
| `common.dfy` | what several modules use |

## How it is modelled

Code that works step by step is a method with loops, on an object where the source has one; a method is
proved against functions and predicates on values, and the properties are lemmas about these.
Each class has an invariant `Valid()` that its methods keep, so that a property of `Valid()` holds over every run.

Times, speeds and positions are real numbers. Square roots are a function assumed to be exact
(`Kinematics.IsSqrt`). Clocks are mathematical integers; where the source keeps only 32 bits, wraps around or
truncates, the model does too, and the true 64-bit values are ghosts beside it.
Predicates with much behind them are sealed by a quantifier over a one-value type, and opened by the lemmas that need them;
methods hide the definitions that their proofs do not need.
Induction is always written out: every lemma turns the automatic one off.

The micro-controller's firmware is not in the repository. `gobackn.dfy` states what is taken for granted of
it: a block is accepted if and only if its low four bits are those of the next number, and every reply carries those bits of
that number. Where its receiver is spoken of byte by byte (`SerialQueues.RetransmissionArrives`, `MsgBlock.RealignDelivers` and
the lemmas that use it), it is taken to run the receive loop of the host, over the same block check.
`steplog.dfy` executes step commands by the rule in the header of `stepcompress.c`.

## What turned out not to hold as one might expect

- The special case of `trapq_add_move` for print time zero leaves an overlap when a real entry is at time zero
  (`TrapQueue.AddedTilesIff`, `TrapQueue.NullMoveOverlap`).
- A step 2^32 ticks or more after the last one goes out with a truncated interval. A micro-controller that counts in 32 bits
  makes its pulse when its counter shows the right value, but a multiple of 2^32 ticks early
  (`StepCompressor.StepCompress.StreamRefinement`, `StepCompressor.FarStepTruncated`).
- `handle_message` computes `rseq - 1 - 1` in unsigned arithmetic. For a data message before the first acknowledgement it
  wraps, and notifications of blocks not yet acknowledged are released (`Notifications.ReleasedAreBelow`, `Notifications.EarlyRelease`).
- The test whether a trigger deadline has moved ahead far enough compares unsigned numbers, so a deadline that moves back is
  sent at once (`TriggerDispatch.DeadlineMoves`, `TriggerDispatch.DeadlineMovesBack`).
- One retransmission need not bring a receiver back in step: it is delivered if and only if no header in the receiver's
  buffer announces a block longer than what follows (`MsgBlock.OneRetransmission`, `MsgBlock.BufferedStart`).
- The compressor's check rejects what its search returns if and only if the next two steps are at the clock of the last
  step sent (`StepSearch.SearchPassesCheck`, `StepSearch.EqualStepsRejected`). It takes three steps in a row at one clock
  to come to that; a flush then stops there, and a pending step that is far ahead is lost
  (`StepCompressor.StepCompress.QueueFlush`, `StepCompressor.StepCompress.QueueAppendFar`).
- Without tolerance, the search may return one step where one command would cover two: when several steps are queued and the
  first two are at one clock (`StepSearch.CompressBisectAdd`).
- A clock before the conversion point of a clock estimate comes back from its time one tick late (`ClockEstimates.TimeRoundTrip`).
- A notification's send time is that of a block's first transmission even when the block was sent again; only for messages
  with content does the code look whether it was (`SerialQueues.SerialQueue.ReportedTimeIsExact`, `SerialQueues.SerialQueue.HandleMessage`).
- A negative word that the C encoder writes in five bytes is not sign-extended by a signed Python parser (`Vlq.SignKept`, `Vlq.SignLost`).

## Model

| member | source | states |
|---|---|---|
| Planner.CommittedPlanIsFinal | Firmware/Extracted/Updates/other/klippy/toolhead.py:127-178 | The start, cruise and end speeds that a lazy flush fixes for its prefix are those that one full flush would give after any further moves have been appended |
| Planner.StablePlan | Firmware/Extracted/Updates/other/klippy/toolhead.py:127-178 | The same for a whole committed prefix at once |
| Planner.CommitSettles | Firmware/Extracted/Updates/other/klippy/toolhead.py:146-154 | The commit point a lazy pass finds starts a new peak and is followed by an anchored move, the condition under which later moves change nothing |
| Planner.CommitIsLatest | Firmware/Extracted/Updates/other/klippy/toolhead.py:149-153 | A lazy pass commits at the last new peak that has a planned move behind it, and nowhere if there is none |
| Planner.SuffixPlan | Firmware/Extracted/Updates/other/klippy/toolhead.py:127-178 | Flushing what is left after a commit gives the remaining moves the plan of the whole queue |
| Planner.Continuous | Firmware/Extracted/Updates/other/klippy/toolhead.py:132-172 | The end speed planned for a move is the start speed planned for the next, across delayed runs and changes of peak |
| Planner.EndsAtRest | Firmware/Extracted/Updates/other/klippy/toolhead.py:132-138 | A full flush plans a stop after the last move |
| Planner.PlanJoins | Firmware/Extracted/Updates/other/klippy/toolhead.py:132-178 | A batch joins up within itself and with the batch handed out before it |
| Planner.PlanIsFastest | Firmware/Extracted/Updates/other/klippy/toolhead.py:127-178 | A full flush is as fast as the limits allow: of all plans for the queue that keep every move's limits and budget, join up, end in a stop, cruise no faster than the peak and do not accelerate in delayed moves, none has a greater start, cruise or end speed anywhere |
| Planner.PlanIsAllowed | Firmware/Extracted/Updates/other/klippy/toolhead.py:127-178 | What a full flush plans is itself such a plan, so it is the greatest of them |
| Planner.PlanIsTight | Firmware/Extracted/Updates/other/klippy/toolhead.py:163-168 | A planned move is at a limit: it cruises at max_cruise_v2 or the peak, or its ramps use its whole speed budget |
| Planner.StartIsGreatest | Firmware/Extracted/Updates/other/klippy/toolhead.py:136-142 | start_v2 is the greatest junction speed from which the queue can still stop, among all speeds that respect the limits |
| Planner.SmoothedIsGreatest | Firmware/Extracted/Updates/other/klippy/toolhead.py:143-144 | smoothed_v2 is the greatest such speed under the smoothed limits |
| Planner.PeakIsGreatest | Firmware/Extracted/Updates/other/klippy/toolhead.py:154-155 | peak_cruise_v2 is the greatest cruise speed that the move allows and that leaves the smoothed budget enough for both ramps |
| Planner.GoverningPeak | Firmware/Extracted/Updates/other/klippy/toolhead.py:145-155 | The peak in force at a planned move is that of the next move at which one is computed; up to there every move accelerates with its whole smoothed budget |
| Planner.Feasible | Firmware/Extracted/Updates/other/klippy/toolhead.py:93-107 | Every planned move has a positive cruise speed within its limit, start and end speeds not above it, the start within the junction limit, and a speed change within the move's distance |
| Planner.RampUp | Firmware/Extracted/Updates/other/klippy/toolhead.py:84-92 | Because of how calc_junction limits junction speeds, a start speed is above the one before it by no more than that move's speed budget |
| Planner.FirstIsPlanned | Firmware/Extracted/Updates/other/klippy/toolhead.py:15-49 | A move without a junction, as the first in the queue, is never delayed |
| LookAhead.Move.LimitSpeed | Firmware/Extracted/Updates/other/klippy/toolhead.py:50-57 | Speed limits keep a move's limits consistent: smoothed budget positive and not above the plain one |
| LookAhead.Move.CalcJunction | Firmware/Extracted/Updates/other/klippy/toolhead.py:62-92 | The junction speed is the least of its bounds, zero if a move is not kinematic or the turn too sharp; with the smoothed one it establishes the links between neighbouring moves that the planner's proofs rest on, for any non-negative geometric bound |
| LookAhead.JunctionTimes | Firmware/Extracted/Updates/other/klippy/toolhead.py:93-107 | For speeds the planner gives out, the three times are non-negative, reach the speeds at the move's acceleration and cover exactly its distance |
| LookAhead.LookAheadQueue.PlanMoves | Firmware/Extracted/Updates/other/klippy/toolhead.py:127-172 | The loop of flush, with its delayed list and nested propagation, calls set_junction exactly once, with the planner's speeds, on every move it will hand out, and finds the commit point |
| LookAhead.LookAheadQueue.Flush | Firmware/Extracted/Updates/other/klippy/toolhead.py:127-178 | What is handed out is final: the plan of a full flush of everything queued since the last full flush, whatever follows a lazy one |
| LookAhead.LookAheadQueue.AddMove | Firmware/Extracted/Updates/other/klippy/toolhead.py:179-187 | Adding a move, with the lazy flush it may cause, keeps everything handed out final; the flush happens exactly when the moves queued since the last one take 0.25 s, and hands out all up to the commit point |
| LookAhead.OnlineAppend | Firmware/Extracted/Updates/other/klippy/toolhead.py:127-187 | Appending any move leaves all plans already handed out those of a full flush |
| LookAhead.OnlineStep | Firmware/Extracted/Updates/other/klippy/toolhead.py:127-178 | Handing out up to the commit point, or everything in a full flush, extends the final plans |
| TrapQueue.AddedTilesIff | Firmware/Extracted/Updates/other/klippy/chelper/trapq.c:98-116 | Null moves keep the queue without gap or overlap if and only if the special case for an entry at time zero is not met by a real entry |
| TrapQueue.NullMoveOverlap | Firmware/Extracted/Updates/other/klippy/chelper/trapq.c:98-116 | A concrete queue, with a real entry at time zero, in which the null move overlaps it |
| TrapQueue.AppendedFollows | Firmware/Extracted/Updates/other/klippy/chelper/trapq.c:120-164 | The entries of one move cover its time exactly, carry position and speed on, and end at start + axes_r * move_d at the end speed |
| TrapQueue.BatchFollows | Firmware/Extracted/Updates/other/klippy/toolhead.py:342-354 | A batch of joined moves leaves the motion queue continuous in time, position and speed |
| TrapQueue.Trapq.Append | Firmware/Extracted/Updates/other/klippy/chelper/trapq.c:120-164 | The method builds exactly the list the lemmas speak of |
| PrinterToolHead.BatchReady | Firmware/Extracted/Updates/other/klippy/toolhead.py:333-354 | What a flush hands out is a batch of motions that join up, among themselves and with the motion queue |
| PrinterToolHead.BatchResult | Firmware/Extracted/Updates/other/klippy/toolhead.py:333-362 | Feeding a batch, lazily or fully planned, with a resync of print time only at rest, keeps the motion queue continuous |
| PrinterToolHead.ToolHead.QueueMove | Firmware/Extracted/Updates/other/klippy/toolhead.py:464-475 | The move joins the look-ahead queue; the prefix that this makes ready, and only it, is fed to the motion queue as one batch running as planned; what was in the motion queue stays, and it remains continuous up to the planned position, for any mix of lazy and full flushes |
| PrinterToolHead.ToolHead.FlushLookahead | Firmware/Extracted/Updates/other/klippy/toolhead.py:363-369 | Everything queued is fed to the motion queue as one batch running as planned, behind all that was there; the motion queue then leads continuously to the commanded position, the end of all batches fed since the start, and rests there |
| ExtruderSmoothing.MoveIntegrate | Firmware/Extracted/Updates/other/klippy/chelper/kin_extruder.c:30-71 | The clipped formulas are the difference of an antiderivative of (time - offset) * pa_position over the part of the range inside the move |
| ExtruderSmoothing.SlopeOfWeighted | Firmware/Extracted/Updates/other/klippy/chelper/kin_extruder.c:15-26 | That antiderivative's increments are the step times (time - offset) * (nominal_position + pressure_advance * nominal_velocity), up to the square of the step times a polynomial |
| ExtruderSmoothing.WeightedIsAntiderivative | Firmware/Extracted/Updates/other/klippy/chelper/kin_extruder.c:15-26 | So its derivative is the integrand of the header comment: difference quotients come within any eps of it, for steps up to an explicit bound |
| ExtruderSmoothing.VelocityIsSlope | Firmware/Extracted/Updates/other/klippy/chelper/kin_extruder.c:17-21 | nominal_velocity is the slope of nominal_position: a step changes the distance by step times velocity, up to the square of the step |
| ExtruderSmoothing.TriangleWeight | Firmware/Extracted/Updates/other/klippy/chelper/kin_extruder.c:22-26 | The weights of the rising and the falling half are smooth_time/2 - abs(t - x) |
| ExtruderSmoothing.PaRangeIntegrate | Firmware/Extracted/Updates/other/klippy/chelper/kin_extruder.c:75-102 | The two walking loops add up to the triangle-weighted integral, by that antiderivative, over the whole queue |
| ExtruderSmoothing.AreaBase | Firmware/Extracted/Updates/other/klippy/chelper/kin_extruder.c:15-26 | The weight has area (smooth_time/2)^2, so positions may be taken relative to the current move |
| ExtruderSmoothing.ExtruderStepper.CalcPosition | Firmware/Extracted/Updates/other/klippy/chelper/kin_extruder.c:109-121 | Gives the weighted average of the header comment, as the sum of those integrals over the moves divided by (smooth_time/2)^2, or the nominal position when smoothing is off |
| ExtruderSmoothing.CutIndependent | Firmware/Extracted/Updates/other/klippy/chelper/kin_extruder.c:15-26 | Cutting any move at any interior time changes no smoothed position |
| ExtruderSmoothing.NominalCut | Firmware/Extracted/Updates/other/klippy/chelper/kin_extruder.c:114-117 | Nor any nominal position |
| CrcStep.ByteStepIsSerial | Firmware/Extracted/Updates/other/klippy/chelper/msgblock.c:24-28 | The byte-at-a-time update is eight steps of the bit-serial reflected CCITT register (the FCS of appendix C.2 of RFC 1662) |
| CrcStep.PythonStepIsByteStep | Firmware/Extracted/Updates/other/klippy/msgproto.py:31-34 | The Python update is the same function |
| Crc16.MsgblockCrc16Ccitt | Firmware/Extracted/Updates/other/klippy/chelper/msgblock.c:20-31 | For every buffer the loop computes the bit-serial CRC |
| Crc16.Crc16CcittPython | Firmware/Extracted/Updates/other/klippy/msgproto.py:29-35 | The Python loop gives the two bytes of the same CRC |
| Crc16.DamageDetected | Firmware/Extracted/Updates/other/klippy/chelper/msgblock.c:20-31 | Any damage confined to two neighbouring bytes changes the CRC |
| Crc16.OneByteDetected | Firmware/Extracted/Updates/other/klippy/chelper/msgblock.c:20-31 | Two buffers of one length that differ in one byte never share a CRC |
| Vlq.RoundTrip | Firmware/Extracted/Updates/other/klippy/chelper/msgblock.c:71-102 | Every 32-bit word encoded and parsed by the C code comes back, in at most five bytes, whatever follows |
| Vlq.PythonToC | Firmware/Extracted/Updates/other/klippy/msgproto.py:42-47 | Any integer encoded by the Python code is parsed by the C code to its value modulo 2^32 |
| Vlq.PythonRoundTrip | Firmware/Extracted/Updates/other/klippy/msgproto.py:42-60 | The signed Python parser returns an encoded integer unchanged if and only if it fits five groups, the unsigned one if and only if it is a 32-bit word |
| Vlq.CToPython | Firmware/Extracted/Updates/other/klippy/msgproto.py:48-60 | The unsigned parser returns what the C code encoded; the signed one returns the signed value if the encoding is shorter than five bytes, else the unsigned one |
| Vlq.SignKept | Firmware/Extracted/Updates/other/klippy/msgproto.py:48-60 | A signed parser understands a word of the C encoder as the signed number meant if and only if that is not below -0x4000000 |
| Vlq.SignLost | Firmware/Extracted/Updates/other/klippy/msgproto.py:48-60 | The five bytes for -0x80000000, and what a signed parser makes of them |
| MsgBlock.EncodeMessage | Firmware/Extracted/Updates/other/klippy/chelper/msgblock.c:145-164 | The words' encodings in order, or an empty message if they do not fit 59 bytes; the buffer is never overrun |
| MsgBlock.MsgblockDecode | Firmware/Extracted/Updates/other/klippy/chelper/msgblock.c:104-119 | The loop yields the integers between header and trailer, and fails unless they end exactly at the trailer |
| MsgBlock.DecodeEncoded | Firmware/Extracted/Updates/other/klippy/chelper/msgblock.c:104-158 | Decoding gives back any list of encoded words, for their exact count and no other |
| MsgBlock.MessageRoundTrip | Firmware/Extracted/Updates/other/klippy/chelper/serialqueue.c:483-490 | Encode, frame and decode give back any list of words that fits a block |
| MsgBlock.FrameIsBlock | Firmware/Extracted/Updates/other/klippy/chelper/serialqueue.c:483-490 | What the host frames is a well-formed block with its sequence number |
| MsgBlock.BuildBlock | Firmware/Extracted/Updates/other/klippy/chelper/serialqueue.c:483-490 | The method frames as the specification says |
| MsgBlock.MsgblockCheck | Firmware/Extracted/Updates/other/klippy/chelper/msgblock.c:33-69 | The check's verdict, including how far it skips and whether sync is lost |
| MsgBlock.CheckAccepts | Firmware/Extracted/Updates/other/klippy/chelper/msgblock.c:33-58 | A block is accepted if and only if the buffer starts with a well-formed one |
| MsgBlock.CheckPacket | Firmware/Extracted/Updates/other/klippy/msgproto.py:243-262 | The Python check agrees with the C check on buffers in sync |
| MsgBlock.ScanAccounts | Firmware/Extracted/Updates/other/klippy/chelper/serialqueue.c:327-345 | Every byte is, in order, in exactly one delivered block, discarded or still buffered |
| MsgBlock.DeliveredAreBlocks | Firmware/Extracted/Updates/other/klippy/chelper/serialqueue.c:327-345 | Only well-formed blocks are delivered |
| MsgBlock.SplitRead | Firmware/Extracted/Updates/other/klippy/chelper/serialqueue.c:327-345 | Reading a stream in two parts delivers the same blocks as reading it at once |
| MsgBlock.ChunkingIndependence | Firmware/Extracted/Updates/other/klippy/chelper/serialqueue.c:327-345 | However a stream is split into reads, the blocks delivered are those of the whole stream |
| MsgBlock.Receiver.InputEvent | Firmware/Extracted/Updates/other/klippy/chelper/serialqueue.c:300-346 | The receive loop, after any history of reads, has delivered the blocks of the whole stream, accounted for every byte, and left fewer than 64 in its buffer |
| MsgBlock.StreamOfBlocks | Firmware/Extracted/Updates/other/klippy/chelper/serialqueue.c:327-345 | A stream of well-formed blocks is delivered block by block |
| MsgBlock.ResyncDelivers | Firmware/Extracted/Updates/other/klippy/chelper/msgblock.c:60-68 | After damage, only what precedes the next SYNC is lost |
| MsgBlock.RetransmitDelivers | Firmware/Extracted/Updates/other/klippy/chelper/serialqueue.c:408-417 | The SYNC before a retransmission brings a receiver with an empty buffer back in step, whether or not it was |
| MsgBlock.RealignDelivers | Firmware/Extracted/Updates/other/klippy/chelper/msgblock.c:33-69 | Whatever a receiver holds in its buffer, in step or not: behind a SYNC it is in step, unless it comes to a header that announces more bytes than follow, and then it delivers nothing; if no well-formed block starts at a place where it looks |
| MsgBlock.OneRetransmission | Firmware/Extracted/Updates/other/klippy/chelper/serialqueue.c:408-417 | One retransmission is delivered exactly if and only if no header in the buffer, where the receiver looks, announces more than follows; otherwise nothing of it is; again if no well-formed block starts where it looks before the retransmitted blocks |
| MsgBlock.RetransmissionsRealign | Firmware/Extracted/Updates/other/klippy/chelper/serialqueue.c:408-417 | Retransmissions on end are all delivered or, while a header in the buffer announces more than has come, none; after thirteen the receiver is in step whatever its buffer held |
| MsgBlock.BufferedStart | Firmware/Extracted/Updates/other/klippy/chelper/msgblock.c:33-69 | A concrete case: with two bytes in the buffer that announce a long block, SYNC and a five-byte block deliver nothing yet |
| StepSearch.UpIsCeiling | Firmware/Extracted/Updates/other/klippy/chelper/stepcompress.c:69-73 | idiv_up, with C's truncating division, is the ceiling for either sign |
| StepSearch.DownIsFloor | Firmware/Extracted/Updates/other/klippy/chelper/stepcompress.c:75-79 | idiv_down is the floor for either sign |
| StepSearch.WindowFacts | Firmware/Extracted/Updates/other/klippy/chelper/stepcompress.c:84-96 | Windows of successive points never overlap, do not touch where the points are apart, and are no wider than max_error and half the gap |
| StepSearch.LongestRun | Firmware/Extracted/Updates/other/klippy/chelper/stepcompress.c:117-139 | The inner loop finds the longest run one add can cover with an interval of the given range: the interval found hits every window, and none of the range covers one point more |
| StepSearch.LimitAdd | Firmware/Extracted/Updates/other/klippy/chelper/stepcompress.c:170-186 | The range of add is cut to exactly those that may still reach the next point |
| StepSearch.CompressBisectAdd | Firmware/Extracted/Updates/other/klippy/chelper/stepcompress.c:104-197 | The search ends; its command has 1 to 65535 steps, a 16-bit add, hits every window it covers, and covers at least as many steps as any single interval without add; with max_error 0 it covers as many as any command can, if and only if the first two of several steps are not at one clock |
| StepSearch.CheckLine | Firmware/Extracted/Updates/other/klippy/chelper/stepcompress.c:204-237 | With its 32-bit registers, the check accepts a command if and only if no register overflows and every pulse hits its window |
| StepSearch.SearchPassesCheck | Firmware/Extracted/Updates/other/klippy/chelper/stepcompress.c:204-237 | The check rejects what the search returns if and only if the next two steps are at the clock of the last step sent |
| StepSearch.SoundStepsForward | Firmware/Extracted/Updates/other/klippy/chelper/stepcompress.c:11-13 | The pulses of a command that the search returns never step back, and step strictly forward to every step wanted later than the one before |
| StepSearch.EqualStepsRejected | Firmware/Extracted/Updates/other/klippy/chelper/stepcompress.c:204-237 | For two steps at the clock of the last one, the search can only return interval 0, count 2, add 0, and the check rejects it |
| StepSearch.EqualStepsAccepted | Firmware/Extracted/Updates/other/klippy/chelper/stepcompress.c:204-237 | Two steps at one later clock can pass: interval 5, count 2, add -5 for both at 5 |
| StepCompressor.AddFactorFits | Firmware/Extracted/Updates/other/klippy/chelper/stepcompress.c:349-351 | With a non-zero add, count is small enough for the 32-bit product in add_move |
| StepCompressor.QueuePoints | Firmware/Extracted/Updates/other/klippy/chelper/stepcompress.c:88-95 | The 32-bit queue entries recover the true 64-bit clocks |
| StepCompressor.SentMove | Firmware/Extracted/Updates/other/klippy/chelper/stepcompress.c:345-374 | add_move keeps history, position, pulses and messages in agreement |
| StepCompressor.StepCompress.AddMove | Firmware/Extracted/Updates/other/klippy/chelper/stepcompress.c:345-374 | The method, with its 32-bit tick count, does so, and queues exactly the command's message behind all messages there |
| StepCompressor.StepCompress.FlushOne | Firmware/Extracted/Updates/other/klippy/chelper/stepcompress.c:380-397 | One command fails if and only if the next two steps are at the clock of the last one sent, and then changes nothing; otherwise it takes at least one step off the queue, and every step is kept |
| StepCompressor.StepCompress.QueueFlush | Firmware/Extracted/Updates/other/klippy/chelper/stepcompress.c:376-398 | Loses no step and no queued message, stops only when the queue is empty or the clock is reached, and starts no command from then on; it fails exactly on coming to two steps at the clock of the last one sent, and never if no three steps in a row are at one clock |
| StepCompressor.StepCompress.SetNextStepDir | Firmware/Extracted/Updates/other/klippy/chelper/stepcompress.c:410-427 | All queued steps go out before the direction message, which is queued behind all messages there, and only if the direction changes; if they cannot, the direction stays |
| StepCompressor.StepCompress.QueueAppendFar | Firmware/Extracted/Updates/other/klippy/chelper/stepcompress.c:429-442 | A far step goes out only after all queued ones; if these cannot be flushed, the step is lost, and no other |
| StepCompressor.StepCompress.Append | Firmware/Extracted/Updates/other/klippy/chelper/stepcompress.c:502-530 | Appends a step at the clock of the one before or later, or cancels it against the pending one of the other direction; the net of all steps kept changes by exactly the step's sign either way. Commands are started only if the pending step turns the direction, is far ahead or finds 64K steps queued, and none later than that step. It fails only with two steps queued at the clock of the last one sent; then nothing is lost but a pending step that was far ahead |
| StepCompressor.StepCompress.Flush | Firmware/Extracted/Updates/other/klippy/chelper/stepcompress.c:541-551 | Every step due by the given clock has been sent, its messages behind all queued before, of which none is lost; left at that very clock are only steps behind a pulse made at it. No command is started once last_step_clock has reached the clock given, but for a pending step due then that turns the direction. If no three steps in a row are at one clock it succeeds |
| StepCompressor.StepCompress.HistoryExpire | Firmware/Extracted/Updates/other/klippy/chelper/stepcompress.c:279-299 | Forgets exactly the oldest moves that ended by the given clock |
| StepCompressor.StepCompress.Conservation | Firmware/Extracted/Updates/other/klippy/chelper/stepcompress.c:371-372 | last_position plus signed queued steps plus the signed pending step is the net of all steps appended |
| StepCompressor.StepCompress.StreamRefinement | Firmware/Extracted/Updates/other/klippy/chelper/stepcompress.c:11-13 | Executing the messages handed over and those queued gives one pulse for each step sent, in order, never late, early by at most max_error and half the gap to the step before (to the last pulse, for the first pulse of a command), together with the pulse before it only if wanted at its clock, the last at last_step_clock; exactly if and only if no gap needs more than 32 bits, and modulo 2^32 always |
| StepCompressor.StepCompress.CollectedRefinement | Firmware/Extracted/Updates/other/klippy/chelper/stepcompress.c:11-13 | Executing the messages handed over so far gives the first of those pulses, as many as their commands count, and all of them when no command waits |
| StepCompressor.FarStepTruncated | Firmware/Extracted/Updates/other/klippy/chelper/stepcompress.c:429-442 | A step 2^32 + 5 ticks away goes out with an interval of 5 |
| StepCompressor.StepCompress.FindPastPosition | Firmware/Extracted/Updates/other/klippy/chelper/stepcompress.c:585-612 | From the last forgotten step on, the position found is the one that counting signed pulses one by one gives |
| StepLog.RootCounts | Firmware/Extracted/Updates/other/klippy/chelper/stepcompress.c:602-606 | The quadratic formula, with an exact square root, counts the pulses due, for either sign of add |
| StepLog.PositionDuring | Firmware/Extracted/Updates/other/klippy/chelper/stepcompress.c:591-609 | During a command, the position is its start position and the pulses already made |
| StepLog.EmitsMove | Firmware/Extracted/Updates/other/klippy/chelper/stepcompress.c:346-361 | One more command keeps executed pulses and history congruent modulo 2^32, and equal if and only if all gaps are short |
| MoveSlots.HeapReplace | Firmware/Extracted/Updates/other/klippy/chelper/stepcompress.c:748-771 | In place: still a min-heap, with the root exchanged for the new clock and nothing else changed |
| MoveSlots.SlotsNeverOverflow | Firmware/Extracted/Updates/other/klippy/chelper/stepcompress.c:672-677 | If commands go out in order, and none before the clock given to it, at any time no more slots are in use than there are |
| StepperSynchronizer.MergeStep | Firmware/Extracted/Updates/other/klippy/chelper/stepcompress.c:786-819 | Taking the lowest request clock keeps the batch sorted and an interleaving of the steppers' queues |
| StepperSynchronizer.StepperSync.PickMessage | Firmware/Extracted/Updates/other/klippy/chelper/stepcompress.c:790-803 | Finds the lowest request clock, of equals the first stepper's |
| StepperSynchronizer.StepperSync.Flush | Firmware/Extracted/Updates/other/klippy/chelper/stepcompress.c:773-827 | Every step due is sent, no command is started from the clock given on, and nothing else changes in what is kept; the batch interleaves, in the order of request clocks, what each stepper hands over next, nothing lost, changed or repeated; every message requested by then is in it, it stops only before a slot user requested later, and every slot user waits for the earliest slot. When a stepper fails, those before it have been flushed, those after it are untouched, and nothing is handed over; no stepper fails whose steps are never three in a row at one clock, and that stays so |
| StepperSynchronizer.StepperSync.NeverOverflows | Firmware/Extracted/Updates/other/klippy/chelper/stepcompress.c:672-677 | The same bound for the slots the scheduler has handed out over all its flushes |
| GoBackN.Delivery | Firmware/Extracted/Updates/other/klippy/chelper/serialqueue.c:159-237 | In every state of every run over lossy channels: receive_seq <= next expected <= send_seq <= receive_seq + 12, the four-bit acknowledgement is understood exactly, and the blocks accepted are the first ones built, in order, without gap or duplicate |
| GoBackN.AcceptsOnlyNext | Firmware/Extracted/Updates/other/klippy/chelper/serialqueue.c:486 | No old or repeated block is mistaken for the next one, though only four bits tell them apart |
| GoBackN.InvNext | Firmware/Extracted/Updates/other/klippy/chelper/serialqueue.c:159-237 | Every step of host, channels and receiver keeps the protocol's invariant |
| GoBackN.Recovery | Firmware/Extracted/Updates/other/klippy/chelper/serialqueue.c:396-441 | From any state, one loss-free retransmission round gets every block accepted and acknowledged |
| CommandQueues.MostUrgent | Firmware/Extracted/Updates/other/klippy/chelper/serialqueue.c:450-464 | The ready message with the lowest request clock |
| CommandQueues.FifoPop | Firmware/Extracted/Updates/other/klippy/chelper/serialqueue.c:449-481 | Messages of a queue go into blocks in the order submitted, none lost, none twice |
| CommandQueues.FifoAdd | Firmware/Extracted/Updates/other/klippy/chelper/serialqueue.c:780-812 | Submitting a batch keeps that order |
| CommandQueues.Raised | Firmware/Extracted/Updates/other/klippy/chelper/serialqueue.c:789-795 | The earliest clock is raised only to no more than 2^31 ticks before the requested one, and no further than needed |
| CommandQueues.PoppedFacts | Firmware/Extracted/Updates/other/klippy/chelper/serialqueue.c:468-473 | Taking a message changes the byte counters by exactly its length |
| CommandQueues.UrgentIsUnique | Firmware/Extracted/Updates/other/klippy/chelper/serialqueue.c:450-464 | Which message is the most urgent is determined |
| CommandQueues.SelectionFills | Firmware/Extracted/Updates/other/klippy/chelper/serialqueue.c:449-467 | The messages selected for a block fit it, and end only when nothing is ready or the most urgent message does not fit any more |
| CommandQueues.SelectionProgresses | Firmware/Extracted/Updates/other/klippy/chelper/serialqueue.c:449-467 | If anything is ready, something is selected |
| Notifications.ToldAt | Firmware/Extracted/Updates/other/klippy/chelper/serialqueue.c:474-477 | Every notification, made or waiting, names a block that carried a message asking for it, and they wait in the order of their blocks |
| Notifications.ReleasedAreBelow | Firmware/Extracted/Updates/other/klippy/chelper/serialqueue.c:240-255 | A message releases notifications of acknowledged blocks only (for a message with content, without the last acknowledged block), if and only if it is not one with content before the first acknowledgement while some wait, where the unsigned subtraction wraps; and it leaves none of these waiting |
| Notifications.EarlyRelease | Firmware/Extracted/Updates/other/klippy/chelper/serialqueue.c:245 | A concrete case of that: one block, not acknowledged, whose notification is released |
| SerialQueues.SerialQueue.UpdateReceiveSeq | Firmware/Extracted/Updates/other/klippy/chelper/serialqueue.c:159-216 | Removes exactly the acknowledged blocks, keeps the unacknowledged byte count, and takes a round-trip sample only from a block that was sent once (section 3 of RFC 6298) |
| SerialQueues.SerialQueue.RearmedWaits | Firmware/Extracted/Updates/other/klippy/chelper/serialqueue.c:207-216 | After an acknowledgement the blocks still waiting are not sent again before the timeout, and with none waiting the timer is off |
| SerialQueues.SampledBetween | Firmware/Extracted/Updates/other/klippy/chelper/serialqueue.c:188-206 | A sample moves the estimate an eighth and the deviation a quarter of the way towards it; the timeout covers the estimate and four deviations, within its limits |
| SerialQueues.SampledFirst | Firmware/Extracted/Updates/other/klippy/chelper/serialqueue.c:191-193 | The first sample gives an estimate of ten times the time measured |
| SerialQueues.SerialQueue.HandleMessage | Firmware/Extracted/Updates/other/klippy/chelper/serialqueue.c:219-274 | Moves the host's window as the protocol's acknowledgement does; makes exactly the notifications due, in order, so that after an acknowledgement none of an acknowledged block waits, and passes content on; a repeated acknowledgement asks for a fast retransmission unless it is to be ignored; the timer is set anew and a round-trip sample taken only when blocks are acknowledged, and the last of these was sent once if and only if it is not below retransmit_seq; a number never sent changes nothing but the count of invalid bytes |
| SerialQueues.SerialQueue.ReportedTimeIsExact | Firmware/Extracted/Updates/other/klippy/chelper/serialqueue.c:240-269 | A notification carries the time at which the block acknowledged last was first due to arrive, however often it was sent; a message with content carries it only while receive_seq > retransmit_seq, in which case that block was sent once, and else 0 |
| SerialQueues.SerialQueue.ReportedAreAcknowledged | Firmware/Extracted/Updates/other/klippy/chelper/serialqueue.c:242-255 | In every state, each notification made names a block that is acknowledged and that carried, in its bytes, a message asking for it, unless a message with content released some before the first acknowledgement |
| SerialQueues.SerialQueue.AcknowledgedAreTold | Firmware/Extracted/Updates/other/klippy/chelper/serialqueue.c:240-255 | Conversely, once an acknowledgement has been handled, every message in an acknowledged block that asks for a notification has had it made |
| SerialQueues.SerialQueue.RetransmitEvent | Firmware/Extracted/Updates/other/klippy/chelper/serialqueue.c:396-441 | Writes SYNC and exactly the unacknowledged blocks, doubles the timeout unless asked by the receiver, and bars round-trip samples from them; the line is busy until all is written, and the next retransmission comes no sooner than the timeout, at least 25 ms, after SYNC and the first block: further copies of the same acknowledgement do not bring it about |
| SerialQueues.SerialQueue.SentIsUnacked | Firmware/Extracted/Updates/other/klippy/chelper/serialqueue.c:408-416 | The sent queue is, block by block with its number, what the protocol has not had acknowledged |
| SerialQueues.SerialQueue.DeliveredInOrder | Firmware/Extracted/Updates/other/klippy/chelper/serialqueue.c:445-508 | End to end: in a state of the protocol with this queue as its host, each block the receiver has accepted carries the messages logged for its number, and for every command queue the messages in them are the first of those submitted to it, in order, none missing or twice; all of them once every block is accepted and the queue is empty |
| SerialQueues.RetransmissionArrives | Firmware/Extracted/Updates/other/klippy/chelper/serialqueue.c:408-417 | What it writes reaches a receiver with an empty buffer, in step or not, as exactly the unacknowledged blocks |
| SerialQueues.SerialQueue.BuildAndSendCommand | Firmware/Extracted/Updates/other/klippy/chelper/serialqueue.c:445-508 | One more block with the next number, framing exactly the messages selected from what is ready, always the most urgent until it does not fit; the queues keep the rest, each notification asked for is registered under that number, and the window and the receiver's buffer are kept to; the block is timed from when it will have gone out, the only one waiting sets the retransmit timer by that, and it is sampled if no other block is |
| SerialQueues.SerialQueue.CheckSendCommand | Firmware/Extracted/Updates/other/klippy/chelper/serialqueue.c:512-579 | Says exactly when a block is wanted now, never, or at which time to look again; only when window and receive buffer allow; makes ready exactly the messages whose earliest clock the block's arrival meets; and sleeps past no waiting message's earliest clock |
| SerialQueues.SerialQueue.CommandEvent | Firmware/Extracted/Updates/other/klippy/chelper/serialqueue.c:583-608 | Builds blocks while one is wanted, each wanted at its turn and made of the most urgent of the messages due at its own arrival; writes all of them in order in one write; leaves exactly the rest in the queues; stops only when the window is closed or no block is wanted, and then says exactly when to look again |
| SerialQueues.KickIsExact | Firmware/Extracted/Updates/other/klippy/chelper/serialqueue.c:557-578 | The clock to wake up at is exact: from it on, and not before, a message becomes ready or a block is wanted |
| SerialQueues.WakeReachesKick | Firmware/Extracted/Updates/other/klippy/chelper/serialqueue.c:575-578 | The time given for it is the one at which a block sent would arrive at that clock |
| SerialQueues.SerialQueue.SendBatch | Firmware/Extracted/Updates/other/klippy/chelper/serialqueue.c:780-812 | The batch waits in order behind what its queue already holds, with earliest clocks only raised, and nothing else changes; a sender that sleeps and is not woken misses nothing |
| SerialQueues.PromotedWaited | Firmware/Extracted/Updates/other/klippy/chelper/serialqueue.c:534-547 | A message becomes ready only at or after its earliest clock, in order |
| ClockEstimates.Clock32IsExact | Firmware/Extracted/Updates/other/klippy/chelper/msgblock.c:190-195 | A 32-bit clock is extended to its true value if and only if that is within 2^31 ticks of the last clock known |
| ClockEstimates.TimeRoundTrip | Firmware/Extracted/Updates/other/klippy/chelper/msgblock.c:197-209 | A clock converted to a time and back is the same clock if and only if it is not before the conversion point; an earlier one comes back one tick late |
| TriggerDispatch.FindMinTimes | Firmware/Extracted/Updates/other/klippy/chelper/trdispatch.c:94-109 | The scan gives every micro-controller the least status time over all others, or its own if it is alone, ties included |
| TriggerDispatch.BoundIsLeastOfOthers | Firmware/Extracted/Updates/other/klippy/chelper/trdispatch.c:94-114 | The bound for a micro-controller's deadline is the least status time of the others |
| TriggerDispatch.NewTimeoutsAre | Firmware/Extracted/Updates/other/klippy/chelper/trdispatch.c:111-122 | A micro-controller is sent its deadline, once, if and only if that extends the last one enough; nothing else is sent |
| TriggerDispatch.SilenceHoldsBack | Firmware/Extracted/Updates/other/klippy/chelper/trdispatch.c:111-114 | No deadline sent is later than any other micro-controller's last report allows |
| TriggerDispatch.DeadlineMoves | Firmware/Extracted/Updates/other/klippy/chelper/trdispatch.c:115 | When the unsigned comparison sends a new deadline, for all differences; a deadline only moves ahead if and only if the new one is not before the old |
| TriggerDispatch.DeadlineMovesBack | Firmware/Extracted/Updates/other/klippy/chelper/trdispatch.c:115 | A deadline that moves back by one tick is sent |
| TriggerDispatch.ParseIsState | Firmware/Extracted/Updates/other/klippy/chelper/trdispatch.c:69-74 | From the sender's side: a block that carries a trsync_state message for an object is taken, by that object's entry alone, as whether it may still trigger and its clock, whatever the reason |
| TriggerDispatch.ParseOfWords | Firmware/Extracted/Updates/other/klippy/chelper/trdispatch.c:69-74 | A block of any other number of words is ignored |
| TriggerDispatch.TrDispatch.HandleTrsyncState | Firmware/Extracted/Updates/other/klippy/chelper/trdispatch.c:63-123 | A report sends exactly the new deadlines, each from the least status time of the others, and records them; at the first report of no more trigger every micro-controller is triggered exactly once, and nothing is sent after |
| TriggerDispatch.TrDispatch.Start | Firmware/Extracted/Updates/other/klippy/chelper/trdispatch.c:127-143 | A session starts only when none is active and there is something to watch |

## Left out

- Reading and writing devices, threads, locks, poll, the pipe and the operating system's output queue: each locked section is one step, a failed or damaged write is loss.
- The micro-controller's firmware, beyond the environment stated above.
- Floating-point rounding: times and speeds are real numbers and square roots are exact.
- Conversion of step times to clocks in `stepcompress_append` and the root finder of `itersolve.c`: step clocks are inputs that do not decrease but for steps that cancel.
- 32-bit overflow inside the compression search, and the storage behind the step queue: the search uses unbounded numbers, the queue grows at will, and when it is found full is an input.
- Clocks near the end of their 64-bit range: step clocks are below 2^63 - 1, as the scheduler assumes.
- `stepcompress_reset`, `stepcompress_set_last_position`, `stepcompress_set_invert_sdir` and `stepcompress_queue_mq_msg`, which change clocks, positions or directions from outside.
- Connection start with numbers out of step, and debug file mode: both ends start at number 1, and `SerialQueues.SerialQueue.HandleMessage` excludes an acknowledgement of a block never sent while nothing has been acknowledged.
- Changing the receive window while blocks are unacknowledged: it is fixed for the life of a queue.
- Fast readers, wake-ups and the debug lists of the serial queue.
- Command queues are values on a list, not linked objects: that a caller keeps a pointer to its queue is not modelled.
- The micro-controllers of a trigger dispatch are records on a list, for the same reason; their serial queues are replaced by the list of messages sent.
- The geometric terms of `calc_junction` and the extruder's own limit: one non-negative bound stands for them.
- `extruder.move`, timing callbacks, drip moves and print-time bookkeeping in `_process_moves`; a resync of print time is an input and happens only at rest.
- `trapq_finalize_moves`, `trapq_set_position` and the extraction of old moves, which only move entries between lists or discard them.
- `PT_string`, message formats, enumerations, the identify dictionary and `encode_msgblock`: plain composition of what is proved.
- G-code, configuration, web hooks, kinematics other than the extruder's, and everything under `extras`.
- StepSearch.CompressBisectAdd: does not say that with a tolerance the command returned is the longest possible with a non-zero add; the search is a heuristic and does not promise it.
- MsgBlock.RealignDelivers: does not cover a buffer that spells a well-formed block together with what follows, CRC included; the receiver then takes that block.
- MsgBlock.OneRetransmission: nor does this, for the same reason.
- MsgBlock.RetransmissionsRealign: nor this.
- ExtruderSmoothing.PaRangeIntegrate: does not use a general theory of integration; the integral of a move is the difference of the antiderivative whose derivative `WeightedIsAntiderivative` gives.
- TrapQueue.Trapq.Append: the sentinel entries at both ends of the list are not modelled.
