# Verified model of the WiCAN NC firmware's hard parts

A Dafny 4.11 project that models nine pieces of the firmware and proves what they are for. `dafny verify dfyconfig.toml` checks all of it.

| module | models | main results |
|---|---|---|
| `CanLease`, `LeaseReaper` | the bus-claim and datalog-park leases (`main/can.c`) and the dead-man reaper (`main/datalog_lease_task.c`) | a committed arm or renewal holds its lease for the whole TTL; a reap only ever hits the sampled, overdue lease; recovery within 78 s and two ticks from any history; stale tokens are powerless |
| `FlashFence` | reboot timer, firmware upload and fast-write start check racing each other | no restart and no upload during a write; an upload passes exactly when the bus is free; the exact condition on timer failures; the exact reason of every refusal |
| `DatalogStream` | the CSV writer task, the bounded ring and the streaming task | every row event is accounted for, in place and under the header of the trip open at it, per client; a row is lost only for cause |
| `ExpressionScanner`, `ExpressionMachine`, `ExpressionTrees`, `ExpressionEndings` | the PID expression evaluator | printed trees evaluate to their value; exactly which texts do not return or leave their end |
| `Dechunker` | the resumable chunked-body decoder | decoding undoes encoding for any split and any buffer; the bulk copy refines single bytes |
| `FastRead` | ISO-TP reassembly, retries, block loop and teardown of the fast ROM read | reassembly is exact; success streams exactly the memory asked for; one teardown |
| `CanWake` | wake windows, the fruitless streak and the cooldown | n fruitless wakes span n-3 hours; resets keep the cooldown's end, and exactly when not |
| `Crc32` | the CRC of SD uploads and its part callbacks | equals the CRC of RFC 1952; notices every change of up to four neighbouring bytes |
| `SeedDefaults` | writing the default sensor list at boot | nothing is lost or half-written, whatever the power cuts |
| `Words` | options, fixed-width words, and the counter that skips zero | 2^32-1 consecutive values are distinct |

How it is built. Code that updates state in place is a class or a method with loops, proved against a function on values; the theorems are lemmas about those functions. Concurrency is a state machine with one action per critical section and one per read outside it, and a run is any enabled sequence of actions. Clocks, the connection generation, pin levels, arriving frames, ring space, and the success of sends and file operations are parameters, so a result holds for all of them.

Where the code and what is said about it differ, the model follows the code:

- The diagnostic-idle time is computed from a clock read before the stamp is read. A frame that lands between the two reads makes it wrap to weeks of silence (`CanLease.FreshFrameReadsIdle`); `CanLease.IdleVerdict` gives the exact condition.
- A reboot timer start that fails while another reboot is coming lowers the flag they share, and a fast write can then be cut off, against the comment at `main/config_server.c:239-242`. `FlashFence.HarmlessIsExact` gives the exact condition.
- A finished upload keeps its flag up for the reboot to lower it, and the result of scheduling that reboot is ignored. If the timer start fails, every later fast write is refused although no reboot is coming, against the comment at `main/config_server.c:247` (`FlashFence.FailedStartStrandsAnUpload`, `FlashFence.FinishedUploadBlocksWrites`); `FlashFence.WriteStartsExactlyWhenFree` gives the exact condition.
- `[B1:B3` without its bracket makes the evaluator push forever, and `B3:` at the end of a text makes it step over the terminator (`ExpressionMachine.UnclosedRangeLoops`, `ExpressionMachine.BitWithoutNumberOverruns`); `ExpressionMachine.ScanLeavesExactlyThere` and `ExpressionEndings.ShortTextsReturnExactlyThen` say exactly when.
- A wake streak above 100 is taken for a torn write at boot and forgotten together with its cooldown (`CanWake.ResetForgetsLongStreaks`); a parked car gets there in 98 hours (`CanWake.ParkedCarsGetThere`).
- A cooldown that has been served is erased, and the next reset then serves a full hour again, although `main/can_wake.c:159-168` leaves one disarmed that is found served at boot (`CanWake.ServedHourIsServedAgain`); `CanWake.ServedAgainExactlyWhenAsked` gives the exact condition.

## Model

| member | source | states |
|---|---|---|
| Words.Bump | main/can.c:309-310 | the token counter never hands out the reserved zero |
| Words.BumpsDistinct | main/can.c:309-310 | any 2^32-1 consecutive tokens are nonzero and pairwise distinct, across the wrap |
| CanLease.Coexistence.Arm | main/can.c:304-317 | a fresh token from the shared counter, and a coherent raised lease |
| CanLease.Coexistence.Renew | main/can.c:319-333 | succeeds exactly for the current token of an active lease; moves the deadline, re-stamps only a known owner |
| CanLease.Coexistence.Release | main/can.c:335-350 | answers yes exactly when the lease is down and the caller was entitled to that; leaves no field behind |
| CanLease.Coexistence.Reap | main/can.c:352-367 | clears exactly the lease whose token and deadline were sampled, and only past that deadline |
| CanLease.LeaseRecord.Clear | main/can.c:296-302 | all four fields go down together |
| CanLease.IdleVerdict | main/can.c:424-428 | "idle for 300 ms" is the truth if and only if no stamp landed between the two reads in a later millisecond |
| CanLease.FreshFrameReadsIdle | main/can.c:424-428 | a frame one millisecond after the clock read reads as 2^32-1 ms of silence |
| LeaseReaper.RunKeepsInv | main/can.c:304-367 | in every interleaving each lease is coherent and carries the token of the arm that raised it, and the reaper's sample satisfies what it branches on |
| LeaseReaper.ReapHitsOverdueLease | main/datalog_lease_task.c:88-121 | in every interleaving a lease the reaper takes down has the sampled token and deadline, is past it (the claim by 3 s more), its owner was gone and no flash was seen |
| LeaseReaper.ReapFoundTheBusQuiet | main/can.c:424-428 | in every run a reap means that the last diagnostic frame was 300 ms old at the pass's clock read, unless a frame landed between that read and the reading of the stamp, in a later millisecond |
| LeaseReaper.StepKeepsLease | main/can.c:335-367 | only a release with no token or its own, or the reaper after the deadline, takes a lease down |
| LeaseReaper.KeptLeaseStaysUp | main/datalog_lease_task.c:86-121 | a lease whose deadline never passes stays up through any run in which nobody releases it with token 0 or its own, stale tokens and all |
| LeaseReaper.CommittedCallHolds | main/can.c:304-333 | in every run: from its commit on, an arm, or a renewal with the current token, that read the clock at c and was given the TTL t keeps the lease up and the datalogger parked while the clock is at most c+t, as long as no other call for it commits and nobody releases it; the lease belongs to the connection the call found, and a renewal that found none keeps the owner |
| LeaseReaper.HeldLeaseIsNotReaped | main/can.c:435-450 | a lease whose connection is there is never reaped, however long overdue |
| LeaseReaper.ReleaseIsObeyedExactly | main/can.c:335-350 | a release takes its lease down exactly if it names no token or the right one, and touches nothing else |
| LeaseReaper.UnparkNeedsEveryLeaseOverdue | main/can.c:273-276 | the reaper turns can_should_park() off only with no flash, no sleep fence, and every lease that was up past its deadline |
| LeaseReaper.ActiveIffToken | main/can.c:285-302 | in every run a lease is active exactly when its token is nonzero, and the two never share a token |
| LeaseReaper.StaleTokenIsPowerless | main/can.c:319-350 | a token that changes a lease by renewal or release is the one of the arm that raised that lease |
| LeaseReaper.RunKeepsTtls | main/can.h:97-100 | when handlers use the TTL of their lease, every active deadline is nonzero and at most that TTL ahead, in every run |
| LeaseReaper.BoundedRecovery | main/datalog_lease_task.c:49-121 | from any history: after the host stops and no connection holds a lease, with passes beginning at most T apart, both leases are clear from T0+78 s+T on between passes and from T0+78 s+2T on at every moment, and only the sleep fence can still park |
| LeaseReaper.QuietRunRecovers | main/datalog_lease_task.c:88-121 | every pass begun more than 78 s after the host stopped passes all of the reaper's gates |
| LeaseReaper.AlarmMeansLongStreak | main/datalog_lease_task.c:69-84 | over any sightings in order, the alarm is up exactly when the unbroken streak of flash sightings at their end spans more than 180 s |
| LeaseReaper.AlarmInEveryRun | main/datalog_lease_task.c:69-84 | and so it is with what the passes of any run have seen |
| LeaseReaper.LeaseTask.Pass | main/datalog_lease_task.c:49-121 | one pass of the loop body does to leases, alarm and timer what the reference effect says |
| LeaseReaper.UndisturbedPass | main/datalog_lease_task.c:49-121 | nine interleaved actions that nothing disturbs add up to that same effect |
| FlashFence.FencedMeansNoReap | main/config_server.c:264-275 | on one snapshot the fence and the reaper never disagree: what fences anything is not reaped, and a raised claim stops fencing only when expired and orphaned |
| FlashFence.RunKeepsInv | main/config_server.c:232-253 | in every interleaving a coming reboot shows in the flag, and whichever of two sides starts second sees the other |
| FlashFence.NeverIntoAWrite | main/config_server.c:3670-3695 | no restart and no upload past its fence while a write is past its start check, in any interleaving in which timer starts fail at most when no other reboot is coming |
| FlashFence.UploadPassesExactlyWhenFree | main/config_server.c:2071-2084 | an undisturbed upload attempt goes ahead if and only if the flash bit is down and the claim is not raised, or has expired with its owner gone; otherwise it is turned away |
| FlashFence.FenceReadsTheSnapshot | main/config_server.c:264-275 | in terms of the lease itself: the fence is clear exactly with no flash and a claim that is down, or past a nonzero deadline and held by no connection |
| FlashFence.UploadFoundTheBusFree | main/config_server.c:2071-2084 | in every run an upload under way found the bus free in that sense at its latest look |
| FlashFence.FailedTimerStartCutsAWriteOff | main/config_server.c:245-251 | a run from boot without that proviso restarts the device in a write |
| FlashFence.HarmlessIsExact | main/config_server.c:245-251 | the exact condition, from every state: what follows a failed timer start is safe, and the shared flag true, if and only if no other reboot was coming |
| FlashFence.UncoveredCutsAWriteOff | main/config_server.c:245-251 | from every other state, whatever codec and upload are doing, the failed start can go on to a restart in a write |
| FlashFence.IdleCodecLetsTheRebootFire | main/config_server.c:3670-3695 | once the codec is idle the next callback of a running timer restarts the device |
| FlashFence.RebootFiresOnceTheCodecRests | main/config_server.c:3670-3695 | and whatever else happens before or between its look and its act, unless a flash or fast read begins, a callback that acts restarts the device and nothing else does |
| FlashFence.BusyCodecPostponesTheReboot | main/config_server.c:3685-3693 | while the codec is busy a callback changes nothing, so the reboot is not lost |
| FlashFence.FlagsTellTheTruth | main/config_server.c:239-251 | the pending flag is up exactly while a reboot is coming, the upload flag exactly while an upload is under way or one has succeeded since it was last lowered |
| FlashFence.RefusalHasAReason | main/ncflash_fastwrite.c:557-576 | a start check refuses if and only if a reboot was coming at its read of the one flag, or an upload was under way or had succeeded at its read of the other |
| FlashFence.WriteStartsExactlyWhenFree | main/ncflash_fastwrite.c:557-576 | an undisturbed start check lets the write through exactly when neither holds, and refuses with neither reboot nor upload in progress exactly when a finished upload is stranded |
| FlashFence.FailedStartStrandsAnUpload | main/config_server.c:2169-2190 | a successful upload whose timer start fails is stranded |
| FlashFence.FinishedUploadBlocksWrites | main/config_server.c:2169-2190 | a finished upload keeps every later write from starting, whatever happens, until another upload begins |
| DatalogStream.SyncAlwaysFits | main/datalog_stream.c:114-169 | the fixed line buffers never truncate and a sync with drops and header is never too long to queue |
| DatalogStream.MessagesRead | main/datalog_stream.c:114-169 | the text of every kind of message, to the letter, with numbers in decimal |
| DatalogStream.NameAfterSlash | main/datalog_stream.c:179-181 | the session line names the file without its directory, cut to 63 characters |
| DatalogStream.StreamWriter.StreamPut | main/datalog_stream.c:114-146 | all or nothing: a whole message with the pending drops is queued and they are cleared, or nothing changes |
| DatalogStream.StreamWriter.NoteEvent | main/datalog_stream.c:175-200 | open and close record the trip and demand a sync |
| DatalogStream.StreamWriter.SyncIfPending | main/datalog_stream.c:150-222 | a pending sync is queued or stays pending |
| DatalogStream.StreamWriter.EmitRow | main/datalog_stream.c:223-230 | a row is queued, or counted as dropped; never ahead of a pending sync |
| DatalogStream.StreamWriter.StreamHook | main/datalog_stream.c:172-231 | a whole call in terms of the value-level writer |
| DatalogStream.RunKeepsInv | main/datalog_stream.c:172-420 | the invariant of both tasks holds after every run, for every client generation |
| DatalogStream.SessionsNameOpenedTrips | main/datalog_stream.c:150-200 | in every run each queued session line carries file, columns and header of the very open event its trip number counts, and the writer's open trip is the one the events opened last |
| DatalogStream.HistoryIsTheRowEvents | main/datalog_stream.c:223-230 | the recorded row history is the row events of the run, each with the trip open at that event and whether it had to be lost; a trip is open at each |
| DatalogStream.QueuedAccountsForEveryRow | main/datalog_stream.c:202-231 | for the client being served, its queued messages with drops as gaps, then the pending drops, are exactly the row events since it was first served, each under its own trip's session line; a gap stands exactly where a sync was still pending, the ring had no room or the text was too long |
| DatalogStream.WireCarriesTheQueue | main/datalog_stream.c:282-407 | what a client receives is hello, perhaps #idle, then its own queue in order without omission, pings between whole messages, perhaps cut short |
| DatalogStream.ClientReadsTrueRows | main/datalog_stream.c:150-231 | end to end: a true prefix of the row events with gaps exactly where a row had to be lost, and the i-th row stands under the session line with file, columns and header of exactly the trip opened for the i-th row event; nothing of an earlier client |
| DatalogStream.FittingRunsLoseNothing | main/datalog_stream.c:202-231 | in every run whose sends all find room and whose rows fit a message, no drops are pending and the served client's queue reads as exactly its row events; so does what it has received once the ring holds nothing for it |
| DatalogStream.StateLinesTellChanges | main/datalog_stream.c:150-170 | in every run a client's queue begins with a state line, "#idle" can only be that one and "#close" never is, and there is at most one more for each trip opened or closed while the client was live |
| DatalogStream.OneRowArrives | main/datalog_stream.c:172-231 | a whole conversation: after connect, open, row and two receives the client has exactly the session line with its header and the row, as text |
| ExpressionScanner.ScanByteIndex | main/expression_parser.c:89-98 | consumes exactly the digits and saturates |
| ExpressionScanner.SaturationIsHonest | main/expression_parser.c:78-98 | the saturating index is the true decimal value up to 999999 and never below 100000 otherwise, for any number of digits |
| ExpressionScanner.FloatIndexCheckIsExact | main/expression_parser.c:206-226 | Fn is accepted if and only if the true value of n is at most 4 |
| ExpressionScanner.DecimalReadsPadded | main/expression_parser.c:78-98 | what index digits stand for is the number they write in decimal, with any zeros in front |
| ExpressionScanner.ScanIntStopsAt | main/expression_parser.c:121-138 | a range bound is blanks, perhaps a sign, and digits, with the value these write |
| ExpressionScanner.ScanToken | main/expression_parser.c:106-234 | the branches and loops of the scanner find the token and length that the reference scanner defines; it is never empty |
| ExpressionMachine.Stack.Push | main/expression_parser.c:52-59 | a push onto a full stack is reported and changes nothing |
| ExpressionMachine.Stack.Pop | main/expression_parser.c:61-67 | a pop from an empty stack yields zero and changes nothing |
| ExpressionMachine.PopAndApply | main/expression_parser.c:285-315 | one operator application, refused without an operand or on a zero divisor |
| ExpressionMachine.CloseParen | main/expression_parser.c:235-276 | reduces to the innermost open parenthesis, and fails without one |
| ExpressionMachine.ReduceAndPush | main/expression_parser.c:277-317 | reduces everything that binds at least as tightly, then stacks the operator |
| ExpressionMachine.DrainAll | main/expression_parser.c:326-372 | the final loop and the demand for exactly one operand |
| ExpressionMachine.EvaluateExpression | main/expression_parser.c:100-372 | the two array stacks and the scan index compute the reference evaluation |
| ExpressionMachine.ShortTextsCannotOverflow | main/expression_parser.c:52-59 | on a text no longer than the stacks more slots would change nothing |
| ExpressionMachine.ScanLeavesExactlyThere | main/expression_parser.c:106-325 | a call runs forever if and only if, some tokens executed, it stands at a range without its bracket; it leaves the text if and only if it stands at a bare Bn: |
| ExpressionMachine.TextDecidesTheEnding | main/expression_parser.c:106-325 | from the text alone: a call that does not fail runs forever, overruns or yields a value exactly by the text's first bad token |
| ExpressionMachine.NumbersOnlyMatterByZero | main/expression_parser.c:106-372 | for any numbers, a call ends as it does with numbers of which nothing is known, unless it fails first on a zero divisor |
| ExpressionMachine.WhichTextsDoNotReturn | main/expression_parser.c:100-372 | exactly which texts keep an evaluation from returning, and which make it overrun |
| ExpressionEndings.FeedFailsExactlyEarly | main/expression_parser.c:235-317 | with numbers never zero, tokens fail exactly when they close a parenthesis that is not open or apply an operator before any operand |
| ExpressionEndings.ShortTextsReturnExactlyThen | main/expression_parser.c:100-372 | for texts of at most 100 characters the condition from the text alone: the first bad token is an unclosed range (or a bare Bn:) and the tokens before it do not fail in that way |
| ExpressionMachine.ScansEnd | main/expression_parser.c:125-231 | an easy case of that: without "[" every call returns, and without ":" the scan never passes the terminator |
| ExpressionScanner.OverrunIsABareColon | main/expression_parser.c:190-200 | the one token that steps over the terminator is B, digits and a colon at the very end |
| ExpressionMachine.UnclosedRangeLoops | main/expression_parser.c:121-138 | an example: every range of either kind, of at most eight bytes, that is not closed, whatever follows it |
| ExpressionMachine.BitWithoutNumberOverruns | main/expression_parser.c:190-200 | an example: Bn: alone steps over the terminator |
| ExpressionTrees.TextScans | main/expression_parser.c:106-325 | scanning a tree's text, whatever legal text follows, feeds the machine the tree's tokens |
| ExpressionTrees.MachineFollowsTheGrammar | main/expression_parser.c:69-76 | operators, precedence and blanks are those of the grammar's own tables, for every character |
| ExpressionTrees.TokensCompute | main/expression_parser.c:69-76 | the heart of precedence: feeding a tree leaves the machine as if its value alone had been pushed, for every later operator that binds no tighter |
| ExpressionTrees.PrintedTreesEvaluate | main/expression_parser.c:100-372 | every tree over the nine operators, with parentheses at least where needed and blanks anywhere, evaluates to its value, and fails exactly when it has none |
| ExpressionTrees.ShortTreesFit | main/expression_parser.c:52-59 | a tree needs no more slots than its text has characters |
| ExpressionTrees.ShortTextsEvaluate | main/expression_parser.c:100-372 | so every printed tree of at most 100 characters evaluates to its value |
| ExpressionTrees.LaterLevelsBindTighter | main/expression_parser.c:69-76 | with the levels written out as the texts of the operators: x o1 y o2 z means o1(x, o2(y, z)) if o2 stands on a later level than o1, and o2(o1(x, y), z) otherwise |
| ExpressionTrees.SignInFront | main/expression_parser.c:61-67 | a sign in front of a tree that binds tighter takes a zero as its left operand |
| ExpressionTrees.OneOperandMustRemain | main/expression_parser.c:360-372 | blanks alone fail, and so do two operands with no operator between them |
| ExpressionTrees.MinimalMeansTheTree | main/expression_parser.c:69-76 | the fewest parentheses keep a tree well-formed and its meaning unchanged |
| ExpressionTrees.PrintThenEvaluate | main/expression_parser.c:100-372 | round trip: print with the fewest parentheses, evaluate, get the tree's value |
| Dechunker.ConsumeThenDecode | main/multipart_upload.c:62-224 | a bounded call followed by decoding the rest is decoding the whole |
| Dechunker.ConsumeProgresses | main/multipart_upload.c:73-220 | outside DONE and ERROR a call consumes at least a byte, or ends in ERROR, and exactly when the first byte is one the state refuses |
| Dechunker.DecodeUndoesEncode | main/multipart_upload.c:77-216 | any chunking of a body, with size lines that spell the lengths in hexadecimal of either case, extensions and trailers as in section 7.1 of RFC 9112, decodes to the body and stops at its end |
| Dechunker.HexReadsWhatIsSpelled | main/multipart_upload.c:94-97 | the digits of a size line are read as n if and only if they spell n in the sixteen hexadecimal digits of either case, zeros in front or not |
| Dechunker.SizeLineIsRead | main/multipart_upload.c:77-145 | a size line to the letter: digits count wherever blanks stand, up to ";"; zero ends the chunks, and a number beyond 32 bits is cut to 2^32-1 |
| Dechunker.MalformedSizeIsRefused | main/multipart_upload.c:84-140 | behind any well-formed chunks a size line without digits, with a sixteenth digit or with any other byte is refused at that byte |
| Dechunker.GarbageAfterDataIsRefused | main/multipart_upload.c:172-191 | and so is data longer than its size line said |
| Dechunker.CallsRefineDecode | main/multipart_upload.c:715-755 | any sequence of calls, split and bounded anyhow, walks along the one reference run |
| Dechunker.AnySplitDecodes | main/multipart_upload.c:62-224 | decoding undoes encoding under any split of the wire and any output capacities |
| Dechunker.BulkIsSteps | main/multipart_upload.c:147-170 | a bulk copy of k bytes is k single steps |
| Dechunker.DechunkerT.ControlByte | main/multipart_upload.c:77-216 | one byte outside chunk data moves the machine as the reference step does, or is refused as it says |
| Dechunker.DechunkerT.CopyData | main/multipart_upload.c:147-170 | copies as much as input, chunk and space allow, and nothing else changes in the output |
| Dechunker.DechunkerT.ConsumeInto | main/multipart_upload.c:62-224 | the loop with its bulk copies computes exactly the byte-at-a-time run |
| Dechunker.DecodeBlock | main/multipart_upload.c:728-753 | a received block is decoded completely, in as many calls as the buffer needs |
| Dechunker.ReceiveChunked | main/multipart_upload.c:715-755 | the driver ends, succeeds exactly when the received bytes decode to DONE, and feeds exactly the body |
| FastRead.AnswerIsReassembled | main/ncflash_fastread.c:157-225 | completeness: whatever follows it, an answer that carries p reassembles to p |
| FastRead.ReassembledWasAnswered | main/ncflash_fastread.c:157-225 | soundness: a reassembled payload was carried by at most 16 pending codes and a correct segmentation |
| FastRead.ReassemblyIsExact | main/ncflash_fastread.c:157-225 | both directions over arbitrary cross traffic, as section 9.6 of ISO 15765-2:2016 segments |
| FastRead.PendingAnswers | main/ncflash_fastread.c:184-196 | a pending code is a single frame of three to seven bytes with 0x7F and 0x78 in their places |
| FastRead.CrossTrafficIsSkipped | main/ncflash_fastread.c:108-122 | the frames that count are the data frames of id 0x7E8 before the first timeout |
| FastRead.UsableExactly | main/ncflash_fastread.c:313-341 | an answer is usable if and only if the frames carry 0x63 and the whole block, behind at most 16 pending codes |
| FastRead.ServedBlocksAreAnswered | main/ncflash_fastread.c:300-345 | if one of the four attempts at each block is answered with its memory, no block stays unanswered |
| FastRead.HexIsWhatIsSpelled | main/ncflash_fastread.c:78-98 | the digits of a command are read as n if and only if they spell n, in either case |
| FastRead.RequestNamesTheBlock | main/ncflash_fastread.c:157-165 | the request frame is a legal single frame of service 0x23 and names address and size unambiguously |
| FastRead.ParseHex32 | main/ncflash_fastread.c:78-98 | eight digits of either case and nothing else; a 32-bit accumulator is enough |
| FastRead.MemorySplits | main/ncflash_fastread.c:311-369 | consecutive blocks of memory join up |
| FastRead.FastReader.RecvMatching | main/ncflash_fastread.c:108-122 | the next frame of ours, cross traffic skipped |
| FastRead.FastReader.ReadOneBlock | main/ncflash_fastread.c:157-225 | the buffer holds exactly the reassembled answer, or the call fails exactly when there is none |
| FastRead.FastReader.ReadRest | main/ncflash_fastread.c:202-225 | the consecutive-frame loop of it |
| FastRead.FastReader.TryBlock | main/ncflash_fastread.c:313-341 | four tries: the block's memory, or none of the four answers was usable |
| FastRead.FastReader.Stream | main/ncflash_fastread.c:300-373 | the block loop sends whole blocks of the memory in order |
| FastRead.FastReader.Read | main/ncflash_fastread.c:227-419 | success streams the marker and exactly the memory asked for; failure a whole-block prefix at most, and only for cause, so a read whose blocks are all served and whose queue is drained succeeds; every exit resumes the receive task and releases the bus |
| CanWake.Confirm | main/can_wake.c:387-434 | live exactly from twenty level changes on, stuck exactly when the line fell and stayed down |
| CanWake.RisesAreHalf | main/can_wake.c:401-412 | rises and falls alternate, so the rise condition never decides |
| CanWake.CanWakeThrottle.BootInit | main/can_wake.c:104-178 | the throttle a boot starts from, for any RTC contents |
| CanWake.CanWakeThrottle.NoteWake | main/can_wake.c:180-188 | opens an unproven window |
| CanWake.CanWakeThrottle.NoteSleepEntry | main/can_wake.c:190-239 | scores an open window once, arms from the third fruitless wake on, mirrors to RTC |
| CanWake.CanWakeThrottle.NoteVoltageOk | main/can_wake.c:241-271 | clears streak and cooldown on both axes; credits only an open window |
| CanWake.CanWakeThrottle.NoteEcuOk | main/can_wake.c:280-298 | the same for an answering ECU |
| CanWake.CanWakeThrottle.InCooldown | main/can_wake.c:301-311 | cooling exactly before the deadline; a passed one is erased |
| CanWake.CanWakeThrottle.Handle | main/can_wake.c:436-507 | a wake is let through exactly when confirmed and not cooling |
| CanWake.AlwaysConsistent | main/can_wake.c:104-311 | from any RTC contents, after any events: an armed cooldown means a streak of at least three, and the RTC streak equals the live one |
| CanWake.WakesWait | main/can_wake.c:190-239 | the earliest time of the j-th next wake, from any state and phase |
| CanWake.FruitlessWakesAreRare | main/can_wake.c:180-239 | within one boot any n wakes that lead nowhere span at least n-3 hours |
| CanWake.TheBoundIsMet | main/can_wake.c:190-239 | that bound is exact: from any boot with a clean streak some n such wakes span n-3 hours, for every n from 3 on |
| CanWake.ChatterNeverMovesTheDeadline | main/can_wake.c:436-483 | refused wakes never move the deadline; a confirmed wake at or after it is let through, and no other and none before it |
| CanWake.ProofClearsEverything | main/can_wake.c:241-298 | after a voltage or ECU proof, in or out of a window: no streak, no cooldown at any time, and the open window scores as a success whatever follows in it |
| CanWake.ResetsKeepTheEnd | main/can_wake.c:138-158 | with a consistent wall clock any number of resets keeps the real end of a cooldown within one second, without accumulating |
| CanWake.ResetForgetsLongStreaks | main/can_wake.c:114-120 | a reset keeps a cooldown still ahead if and only if the streak is 3 to 100 |
| CanWake.ParkedCarsGetThere | main/can_wake.c:114-120 | a streak of 101 is reached without any fault, 98 hours after the first wake, and the next reset forgets it |
| CanWake.CanBootIsAWake | main/can_wake.c:104-135 | a boot believes a streak with the right magic and of at most 100; one caused by CAN is a wake that the next sleep entry scores |
| CanWake.BootCoolsExactlyThen | main/can_wake.c:136-177 | for any RTC contents and clock, a boot that CAN did not cause cools down if and only if the trusted streak is at the limit and the stored deadline is not one that has passed; for how long, and what becomes of the stored deadline |
| CanWake.ServedAgainExactlyWhenAsked | main/can_wake.c:159-176 | a cooldown whose deadline has passed is served again after a reset if and only if someone asked about it before the reset and the streak is at most 100 |
| CanWake.ServedHourIsServedAgain | main/can_wake.c:159-176 | and then for a full hour, although a wake would have been let through before |
| Crc32.Crc32Step | main/config_server.c:2207-2216 | the bit loop computes the fold of the byte step |
| Crc32.StepsAgree | main/config_server.c:2212-2213 | the masked step and the conditional step of section 8 of RFC 1952 agree |
| Crc32.BitsAreLinear | main/config_server.c:2212-2213 | the step is linear over exclusive or |
| Crc32.FoldIsTableUpdate | main/config_server.c:2204-2216 | for every state and byte string the bitwise form equals the table-driven form of section 8 of RFC 1952 |
| Crc32.FoldAppends | main/config_server.c:2261-2262 | the CRC of two pieces in turn is the CRC of both together |
| Crc32.FoldIsInjective | main/config_server.c:2207-2216 | different states stay different under the same bytes |
| Crc32.WindowsMeet | main/config_server.c:2207-2216 | two windows of at most four bytes reach one state only from states that differ as the windows do |
| Crc32.SmallWindowsShow | main/config_server.c:2197-2199 | in a file of any length, replacing one to four consecutive bytes by others changes the CRC |
| Crc32.SdUpload.PartBegin | main/config_server.c:2228-2242 | takes one file part and no second one |
| Crc32.SdUpload.PartData | main/config_server.c:2244-2264 | appends and sums the bytes, or refuses beyond 4 MB or on a short write; size and CRC stay those of the file |
| Crc32.SdUpload.Report | main/config_server.c:2406-2413 | the reported size and CRC are those of the stored bytes |
| Crc32.ReceivePart | main/config_server.c:2244-2264 | the outcome depends on the bytes alone, not on how callbacks split them, and succeeds exactly up to 4 MB |
| SeedDefaults.TroubleOnlyKeeps | main/auto_pid_seed_logic.c:24-48 | trouble with the file system can only make a boot keep what is there, and a file that cannot be looked at or read is kept |
| SeedDefaults.VerdictIsExact | main/auto_pid_seed_logic.c:24-48 | for every file, what a boot does and into which backup it goes: kept exactly if too large to look into or an object with one of our keys or a sensor |
| SeedDefaults.SeedDefaultSensors | main/config_server.c:3823-3873 | one boot, cut at any step or not: the list is old, absent or complete, a replaced one is in its backup, other files are untouched, and a faultless boot finishes the job |
| SeedDefaults.Stage | main/config_server.c:3839-3854 | only the temporary file changes, and it is complete before it is used |
| SeedDefaults.Install | main/config_server.c:3855-3870 | backup before replacement |
| SeedDefaults.BootKeepsAccount | main/config_server.c:3823-3873 | one boot keeps the account of where the original is |
| SeedDefaults.NothingIsLost | main/config_server.c:3814-3873 | over any number of boots cut anywhere: original, absent or complete default, and an original that was replaced was not worth keeping and is in its backup |
| SeedDefaults.OurFileStays | main/auto_pid_seed_logic.c:40-46 | a file with our keys or any sensor, or too large to look into, is never touched by any number of boots, nor is anything beside it |
| SeedDefaults.FaultlessBootSettles | main/config_server.c:3829-3872 | one boot without faults keeps what is worth keeping, replaces everything else behind a backup, and ends with a list that every later boot keeps |

## Left out

- Drivers, WiFi, HTTP plumbing, JSON parsing, logging texts and diagnostics counters: foreign calls, or only easy members. What parsing a sensor file finds is a parameter of `SeedDefaults`.
- LeaseReaper.BoundedRecovery: uptimes and TTLs are below 2^62 microseconds, so no 64-bit deadline wraps; the last diagnostic stamp is less than 2^32 ms old. A pass may take any time; how long is bounded only through the ticks.
- LeaseReaper.ReapFoundTheBusQuiet: speaks of the frame that stored its stamp last; two tasks can store in the other order than they read the clock (`main/can.c:718-725`). The stamp is less than 2^32 ms old and the pass takes less than that; beyond it a 32-bit difference means nothing.
- LeaseReaper.StaleTokenIsPowerless: holds within 2^32-1 arms; later a token can come round again.
- can_diag_idle_ms and can_bus_idle_ms outside the snapshot, and the bus-idle field, which the reaper does not use.
- The fast-write codec beyond its start check, and the fence in front of SD renames: the second check and the unlink are separate steps (`main/config_server.c:2387-2398`), so only the check itself could be stated.
- FlashFence.NeverIntoAWrite: "no restart" means none by the restart timer. The direct restarts of the console, the factory reset command and the sleep path (`main/console.c:298`, `components/cmdline/cmd_factoryreset.c:96`, `main/sleep_mode.c:1636`) are not modelled.
- FlashFence.IdleCodecLetsTheRebootFire: assumes that the timer keeps calling back; a codec that hangs holds the reboot for ever, as the code intends.
- DatalogStream.RunKeepsInv: fewer than 2^32-1 connections, and fewer than 2^32-1 rows lost in a row. Time is left out: a ping may go out at any turn of the loop. A row is emitted only while a trip is open. The goodbye line to a replaced client may be cut short.
- The evaluator's numbers are abstract: floating point, casts, shifts and the assembly of byte ranges are one unspecified meaning per operand and operator. Reads of data[] beyond the frame, and a range index too large for sscanf's %d, are not modelled.
- Unbalanced parentheses: the evaluator accepts some, and nothing is said about the value of such texts. Of signs without a left operand only one in front of the text is treated.
- The multipart parser library, its abort of an upload in mid-body, receive timeouts, and the path that pre-reads the body for its boundary (`main/multipart_upload.c:570-629`).
- FastRead.FastReader.Read: assumes that a late answer to an earlier request is never taken for this one; the drains that see to it are not modelled, nor is the dropping of queued buffers when the host has gone. The busy flag and the flash bit are read and raised by one caller at a time.
- CanWake.AlwaysConsistent: the streak is unbounded; the code's 32-bit counter would wrap after 2^32 fruitless wakes.
- CanWake.ResetsKeepTheEnd: both clocks are read at one instant. A window that is open when the device crashes is lost, and a boot without a stored deadline serves a full hour; neither is bounded here.
- The stuck-RXD fault latch and the arming of the pin (`main/can_wake.c:327-383`): only easy members.
- Crc32.SdUpload.PartData: a write that fails half-way leaves a partial temporary file, which the handler deletes; the model keeps the bytes from before it.
- SeedDefaults.NothingIsLost: assumes atomic renames and a default list that a boot keeps. An older backup of the same kind is overwritten, as in the code.
