# Velix: verified models of the kernel's state machines and stream algorithms

Velix is an agent kernel written in C++. This project models, in Dafny, the parts of it whose correctness depends on
more than one function at a time: the LLM request scheduler, the retry table, the streamed tool calls of the Anthropic
adapter, the terminal driver's frame parser and job life cycle, the terminal session registry, the process registry with
its termination engine, the executioner's SHA-256 and single-flight preparation, message framing, UTF-8 repair and edit
distance.

Every component that updates its state in place is a class whose methods follow the source's branches, each tied by its
`ensures` to a function of the old state. What the source promises is then proved about those functions. Where several
threads act, a second module (`...Runs`) has one step for each critical section and proves properties of every run, in
any interleaving.

| File | What it holds |
|---|---|
| `Levenshtein.dfy` | edit scripts, the dynamic-programming table, both similarity scores |
| `Utf8.dfy` | validation and repair against a reference definition by encoded characters |
| `Framing.dfy` | frame headers, the partial-send and partial-receive loops, the round trip |
| `Sha256Tables.dfy`, `Sha256.dfy`, `Sha256Context.dfy` | the constants, FIPS 180-4 on whole messages, the streaming context that refines it |
| `Sha256Laws.dfy`, `Sha256Abc.dfy` | what the word functions do to bits and numbers; the standard's example, round by round |
| `Common.dfy`, `Unsigned.dfy` | optional values and sequences; ages of unsigned time stamps |
| `Decimal.dfy` | printed and parsed integers (`to_string`, `printf`, `std::stol`, `std::stoi`) |
| `SentinelFrames.dfy`, `SentinelParser.dfy`, `SentinelBytes.dfy` | control frames in terminal output, the incremental parser, where every byte of the stream goes |
| `TerminalReader.dfy` | parser and job together: from what the shell prints to the job's record |
| `Jobs.dfy`, `JobRuns.dfy`, `JobOutcomes.dfy`, `DriverLives.dfy` | the job store and one driver's critical sections; all interleavings of many drivers; codes and deadlines of finished jobs; how shells, timeout threads and closes end |
| `Scheduler.dfy`, `SchedulerRuns.dfy`, `SchedulerUsers.dfy`, `SchedulerFreshness.dfy` | queues, locks and lazy heap; all runs of clients and workers; which users and trees wait for each other; whose priority decides a pick |
| `Attempts.dfy` | retries, supersession and cancellation |
| `StreamMerge.dfy`, `AnthropicStream.dfy` | merging of deltas; the adapter's two ways to read a response |
| `SseEvents.dfy`, `SsePrinting.dfy` | server-sent events in a body that arrives in pieces; bodies as a provider prints them |
| `AnthropicCall.dfy`, `AnthropicEvents.dfy` | the streaming call from the body to the response; what the data of an event is taken for |
| `ProcessRegistry.dfy`, `RegistryLaws.dfy`, `RegistryRuns.dfy` | tables, derived indexes, the termination engine; what each operation changes; all runs |
| `TerminalRegistry.dfy`, `TerminalLaws.dfy`, `SessionRuns.dfy` | session limits and driver ownership; what each operation changes; all runs |
| `PrepareCoalescer.dfy`, `CoalescerRuns.dfy` | single-flight preparation; all runs |

`dafny verify dfyconfig.toml` checks everything.

## Where the code does not do what one would expect

The model follows the code. Each of these is proved by the members it names.

- A conversation attempt that is superseded while its inference runs completes with an error, not as cancelled: the null
  result of `llm/scheduler.cpp:1200-1202` makes `response.value` throw at line 1417. `Attempts.DoomedIsCancelledIff`
  says exactly which attempts are reported as cancelled.
- Superseding an attempt does not undo its input. In the conversation modes a request without a messages array has its
  input stored before inference (`llm/session_io.cpp:963-973`), so an attempt superseded after that leaves it stored,
  and the retry stores it again (`Attempts.SupersededInputIsStoredTwice`). `Attempts.DoomedStoresInputIff` says exactly
  whose input is stored; answers never are (`Attempts.DoomedNeverAnswers`).
- `exec` waits for idle and installs its job in two lock scopes, so of two calls that both saw the driver idle the first
  one's job stays Running for good. `JobRuns.OrphansComeFromBusyInstalls` shows that nothing else makes such orphans.
- The flood guard does not bound the pending bytes, in spite of `core/persistant_applications/terminal_driver.hpp:41-42`:
  it gives up one byte a feed (`SentinelParser.PendingOverLimitIff`, `SentinelParser.PendingIsNotBounded`).
- `kill_processes` is documented to remove its targets from the registry. It marks each target dead first, so the
  removal that follows returns early: the pid stays in the table and in the index for good, and its tree can never
  become completed (`RegistryRuns.ZombieForever`, `RegistryRuns.KillingBlocksCompletion`).
- A candidate left in the scheduler's heap by a queue that was erased can match the version of a new queue of the same
  key, and then decides with a score that the request it hands out never had (`SchedulerFreshness.StaleCandidateDecides`,
  as a run). A release that erases a queue with candidates left is exactly what makes this possible
  (`SchedulerFreshness.StepFreshIff`); until then every pick goes by a priority of its own request
  (`SchedulerFreshness.PicksGoByTheirRequest`).
- A streamed tool call with an empty input has the arguments `""`, read at once it has `"{}"`
  (`AnthropicStream.EmptyInputDiffers`; `AnthropicStream.StreamingAgreesIff` is the exact condition).
- Stopping at the end of the message while the body is being read makes the HTTP client report a cancelled request
  (`vendor/httplib.h:13625-13632`), which `llm/adapters/openai_compatible.hpp:254-257` turns into an exception. The
  streaming call answers exactly if the end of the message comes last and no blank line follows it
  (`AnthropicCall.CallAnswersIff`), so a body that ends as the format asks for always fails
  (`AnthropicCall.WellFormedBodyFails`).
- Empty data lines at the start of a server-sent event are lost, because the reader tells "no data yet" by the data being
  empty (`SsePrinting.MessageComesBackIff`).
- A tree that is named "user_" and a user's name shares that user's queue, so the two block each other
  (`SchedulerUsers.SameQueueIff`).
- Session ids are not unique: two users can have one in common exactly if one name, followed by a colon, starts the
  other (`TerminalRegistry.UsersShareIdsIff`).
- `detect_dead_sessions` marks by id what it found dead earlier, so a session re-created in between is marked dead with
  a living driver (`SessionRuns.StaleScanTakesLivingDriver`, `SessionRuns.HealthyMarkedDeadIff`).
- `evict_dead_and_idle` reads its clock before it takes the lock and subtracts unsigned, so a session used just after
  that reading is evicted as idle (`TerminalRegistry.IdleIff`).
- `filename_score` of two equal empty names is 0 (`Levenshtein.FilenameScore`), while `levenshtein_score` of them is 1
  (`Levenshtein.LevenshteinScore`).
- A JSON text longer than the receiver's limit can be sent but is refused when it arrives (`Framing.FrameComesBackIff`).
  An empty payload can be framed by `make_frame`, and is refused as well; `send_json` sends no such frame, because the
  empty string is no JSON text.
- Pruning reads its clock before it takes the lock and subtracts unsigned, so a job that finishes in between is lost at
  once (`JobRuns.JustFinishedIsLost`, `JobRuns.PrunedIff`).
- When a shell dies by itself before `close`, the driver's timeout thread is never told to stop and `close` waits for it
  for good (`DriverLives.TimeoutThreadCanEndIff`).

## Model

| member | source | states |
|---|---|---|
| `Levenshtein.DistanceIsLeastCost` | utils/file_tools.cpp:149-160 | the table's recurrence is the least cost of any script of keeps, replacements, insertions and deletions between the two strings: some script reaches it, none is cheaper |
| `Levenshtein.DistanceBounds` | utils/file_tools.cpp:162-167 | the distance is at least the difference of the lengths and at most the longer length, so the score cannot leave [0,1] |
| `Levenshtein.DistanceSymmetric` | utils/file_tools.cpp:149-160 | the distance is symmetric |
| `Levenshtein.ZeroIffEqual` | utils/file_tools.cpp:149-160 | the distance is zero exactly for equal strings |
| `Levenshtein.TriangleInequality` | utils/file_tools.cpp:149-160 | going through a third string is never shorter |
| `Levenshtein.Compose` | utils/file_tools.cpp:149-160 | two scripts one after the other can be done by one script that costs no more |
| `Levenshtein.FillBorders` | utils/file_tools.cpp:153-154 | the first row and column hold their own index |
| `Levenshtein.FillRow` | utils/file_tools.cpp:155-159 | the inner loop completes one row of least costs of prefixes and leaves the other rows alone |
| `Levenshtein.FillTable` | llm/skills/skill_registry.cpp:387-401 | the in-place table ends with the distance of the two strings as they are compared |
| `Levenshtein.EditDistance` | utils/file_tools.cpp:149-160 | the distance up to letter case |
| `Levenshtein.SameLetterIff` | utils/file_tools.cpp:156 | two characters count as equal exactly if they are the same or the two cases of one ASCII letter |
| `Levenshtein.ScoreRange` | utils/file_tools.cpp:166 | a score is in [0,1], 1 only at distance 0, 0 only at the greatest distance |
| `Levenshtein.FilenameScore` | utils/file_tools.cpp:162-167 | in [0,1]; 1 exactly for a non-empty target equal up to case; 0 for the empty target |
| `Levenshtein.LevenshteinScore` | llm/skills/skill_registry.cpp:380-403 | in [0,1]; 1 exactly for equal names, two empty ones included |
| `Utf8.StepFindsFront` | utils/file_tools.cpp:257-293 | the scan takes a prefix exactly if it is one encoded character (section 3 of RFC 3629, byte patterns only) |
| `Utf8.ValidateUtf8` | utils/file_tools.cpp:252-296 | the loop counts the bytes that start no character where the scan meets them |
| `Utf8.DecodeUtf8WithReplacement` | utils/file_tools.cpp:300-342 | the loop builds the repaired string of the whole input |
| `Utf8.ErrorFreeIffWellFormed` | utils/file_tools.cpp:250-296 | no error is counted exactly if the string can be cut into encoded characters |
| `Utf8.RepairedIsValid` | utils/file_tools.cpp:298-342 | the repaired string has no errors |
| `Utf8.RepairFixesOnlyInvalid` | utils/file_tools.cpp:298-342 | repair changes exactly the strings that have errors |
| `Utf8.RepairIdempotent` | utils/file_tools.cpp:298-342 | repairing twice is repairing once |
| `Utf8.RepairGrowth` | utils/file_tools.cpp:334-338 | repair lengthens by exactly two bytes for each error counted by validation |
| `Utf8.FirstBytes` | utils/file_tools.cpp:257-293 | how long a sequence is by the range its first byte lies in, and which bytes continue one |
| `Utf8.EncodeEncoded` | utils/file_tools.cpp:257-293 | every character number up to 10FFFF, encoded by the table of section 3 of RFC 3629, is taken as one character |
| `Utf8.StrayByteReplaced` | utils/file_tools.cpp:334-338 | a byte that can start no character, behind any valid text, becomes the three bytes of U+FFFD; the text before is kept and the rest is repaired by itself |
| `Framing.DecodeEncode` | communication/asio_framing.hpp:17-31 | decoding an encoded 32-bit length gives it back |
| `Framing.EncodeDecode` | communication/asio_framing.hpp:17-31 | encoding a decoded header gives the same four bytes |
| `Framing.HeadersInOrder` | communication/asio_framing.hpp:25-31 | the first byte is the most significant: lengths compare as their headers do, byte by byte |
| `Framing.EncodeInto` | communication/asio_framing.hpp:25-31 | the four header bytes, written in place, are the encoding |
| `Framing.MakeFrame` | communication/asio_framing.hpp:33-44 | the buffer is the header followed by the payload |
| `Framing.SocketWrapper.SendAll` | communication/send.cpp:12-70 | whatever the system answers, the bytes on the wire and the error are those of sending piece by piece |
| `Framing.SocketWrapper.SendJson` | communication/send.cpp:72-86 | closed socket and invalid JSON are refused with nothing on the wire; otherwise header then body, and nothing more after a failure |
| `Framing.SocketWrapper.RecvAll` | communication/recv.cpp:13-26 | fills the buffer from its offset with the next bytes of the wire, over any partial receives, or fails |
| `Framing.SocketWrapper.RecvBody` | communication/recv.cpp:49-62 | chunked reading into one buffer returns the next bytes in order |
| `Framing.SocketWrapper.RecvRaw` | communication/recv.cpp:31-63 | one message: header, size check, body, and every error case |
| `Framing.SendingPrefix` | communication/send.cpp:12-70 | a send puts a prefix of its data on the wire, and all of it exactly if it reports no error |
| `Framing.SendingStops` | communication/send.cpp:24-69 | after any waits and partial sends, the first answer that is neither stops the sending there, with its own error |
| `Framing.SendJsonSendsFrame` | communication/send.cpp:72-86 | a message send puts a prefix of the frame on the wire, the whole frame exactly if it reports no error, and nothing of a payload that is no JSON text |
| `Framing.RecvRawReadsFrame` | communication/recv.cpp:31-63 | from a wire that starts with a frame a receive gives its payload or an error, never anything else, and leaves the rest |
| `Framing.FrameComesBackIff` | communication/recv.cpp:41-47 | a frame comes back as its payload exactly if the payload is neither empty nor over the limit |
| `Framing.FramedRoundTrip` | communication/send.cpp:72-86 | for every list of payloads and every schedule of partial sends and receives, only a prefix of the list can come out, and all of it if no receive fails |
| `Sha256Tables.RoundConstantsAreCubeRoots` | execution/executioner.cpp:118-135 | each spelled constant is the first 32 bits of the fractional part of the cube root of its entry in a table of primes (section 4.2.2 of FIPS 180-4) |
| `Sha256Tables.TableOfPrimes` | execution/executioner.cpp:118-135 | the entries of that table are primes, in ascending order |
| `Sha256Tables.InitialWordsAreSquareRoots` | execution/executioner.cpp:149-152 | the same for the initial value and square roots (section 5.3.3) |
| `Sha256.PaddingIsLeast` | execution/executioner.cpp:190-213 | the zero bits of the padding are the least solution of the congruence of section 5.1.1 |
| `Sha256.PaddedWholeBlocks` | execution/executioner.cpp:190-213 | a padded message is a whole number of blocks |
| `Sha256.HexInjective` | execution/executioner.cpp:226-229 | different byte strings have different hexadecimal spellings |
| `Sha256Context.Ctx.constructor` | execution/executioner.cpp:145-153 | a new context has absorbed nothing |
| `Sha256Context.Ctx.ExpandSchedule` | execution/executioner.cpp:166-171 | the 64 words of the message schedule |
| `Sha256Context.Ctx.Mix` | execution/executioner.cpp:172-178 | the working variables after 64 rounds |
| `Sha256Context.Ctx.Transform` | execution/executioner.cpp:155-181 | the state array becomes the hash value after one more block |
| `Sha256Context.Ctx.Update` | execution/executioner.cpp:183-188 | the context has absorbed exactly the bytes given so far, full blocks hashed and the rest buffered |
| `Sha256Context.Ctx.Finalise` | execution/executioner.cpp:190-230 | the digest of FIPS 180-4 of everything absorbed, in hexadecimal |
| `Sha256Context.LastBlocks` | execution/executioner.cpp:190-214 | both padding branches compress exactly the last one or two blocks of the padded message |
| `Sha256Context.BitCounterWraps` | execution/executioner.cpp:186 | the 64-bit counter gives the length bytes of the standard even after it wraps |
| `Sha256Context.Ctx.StoreLength` | execution/executioner.cpp:205-213 | the counter's bytes, the most significant one in front |
| `Sha256Context.Ctx.Hexadecimal` | execution/executioner.cpp:215-229 | the digest bytes in word order, although they are stored byte by byte across the words |
| `Sha256Context.HashPieces` | execution/executioner.cpp:183-230 | however a message is cut into updates, the result is the digest of the whole message |
| `Sha256Context.HashText` | execution/executioner.cpp:234-239 | the digest of a text |
| `Sha256Context.LowBytesByShifts` | execution/executioner.cpp:205-213 | the eight length bytes are the number shifted by 56, 48 and so on down to 0 |
| `Sha256Laws.ChBits` | execution/executioner.cpp:138 | Ch has the bits of y where x has a one and those of z elsewhere |
| `Sha256Laws.MajBits` | execution/executioner.cpp:139 | Maj has a one where two words have a one and a zero where two have a zero, whichever two |
| `Sha256Laws.TurnByOne` | execution/executioner.cpp:137 | turning by one bit moves the last bit to the front |
| `Sha256Laws.TurnByMore` | execution/executioner.cpp:137 | turning by n + 1 bits is turning by one bit and then by n |
| `Sha256Laws.BigEndianNumber` | execution/executioner.cpp:167-169 | the first of four bytes counts 2^24, the next ones 2^16, 2^8 and 1 |
| `Sha256Laws.OctetsOfBigEndian` | execution/executioner.cpp:215-229 | a word is spelled back as the four bytes it was read from |
| `Sha256Abc.DigestOfAbc` | execution/executioner.cpp:155-239 | the digest of the letters abc is the one in appendix B.1 of FIPS 180-2, proved word by word and round by round; so the rotation amounts and the order of words, variables and digits are those of the standard |
| `Decimal.ParseShow` | core/persistant_applications/terminal_driver.cpp:129-151 | a printed number in range is parsed back to itself |
| `SentinelFrames.TryParseStable` | core/persistant_applications/terminal_driver.cpp:100-161 | once a frame is recognised, or refused, more input does not change the verdict |
| `SentinelFrames.TryParseOwnBytes` | core/persistant_applications/terminal_driver.cpp:100-161 | a frame is recognised from its own bytes alone |
| `SentinelFrames.DrainAppend` | core/persistant_applications/terminal_driver.cpp:58-91 | draining a buffer in two steps gives what draining at once gives |
| `SentinelFrames.DrainKeepsBytes` | core/persistant_applications/terminal_driver.cpp:58-91 | the pieces in order and the rest are the buffer: nothing lost or invented |
| `SentinelFrames.DrainLeavesIncomplete` | core/persistant_applications/terminal_driver.cpp:76-88 | what stays behind is nothing or an incomplete frame |
| `SentinelFrames.MergedByFlat` | core/persistant_applications/terminal_driver.cpp:58-91 | events with adjacent outputs merged do not depend on how text was grouped |
| `SentinelParser.Parser.Feed` | core/persistant_applications/terminal_driver.cpp:58-91 | the loop recognises the pieces of the drained buffer, fires their callbacks in order, and applies the flood guard |
| `SentinelParser.Parser.TryParseFrame` | core/persistant_applications/terminal_driver.cpp:100-161 | takes one frame or one literal byte, or nothing exactly if the frame is incomplete |
| `SentinelParser.Parser.FlushRemaining` | core/persistant_applications/terminal_driver.cpp:93-98 | after a flush the whole input has been passed on |
| `SentinelParser.TryParseByPositions` | core/persistant_applications/terminal_driver.cpp:100-161 | looking for the separators one after the other recognises the same frames as cutting fields |
| `SentinelParser.RunKeepsBytes` | core/persistant_applications/terminal_driver.cpp:58-91 | after any chunks, guard included, the input is the pieces in order and then the pending bytes |
| `SentinelBytes.CompleteIff` | core/persistant_applications/terminal_driver.cpp:100-161 | a buffer is recognised as one complete frame exactly if it is RS, a known tag and three fields, each ended by US |
| `SentinelBytes.FrameMeans` | core/persistant_applications/terminal_driver.cpp:117-151 | a start frame gives its pid if that is positive and fits 64 bits, an end frame its code, or 0 if that does not fit 32 bits |
| `SentinelBytes.EveryByteIsAccountedFor` | core/persistant_applications/terminal_driver.cpp:58-98 | after any chunks, guard included: every byte that left the buffer was passed to an output callback or belongs to a whole frame, in the order of the input, and nothing else was passed on |
| `SentinelParser.QuietRunIsDrain` | core/persistant_applications/terminal_driver.cpp:58-91 | the guard fires in a run exactly if some prefix of the chunks leaves more than the limit undecided; otherwise the run is one drain of the whole input |
| `SentinelParser.ChunkIndependence` | core/persistant_applications/terminal_driver.cpp:58-91 | two cuts of one stream in which the guard stays quiet give the same events and the same pending bytes |
| `SentinelParser.PrintedItemsComeBack` | core/persistant_applications/terminal_driver.cpp:575-581 | text without frame starts and printed frames of at most the limit come back as themselves however the stream is cut |
| `SentinelParser.SplitFrameSurvivesIff` | core/persistant_applications/terminal_driver.cpp:78-88 | a frame cut in two is recognised exactly if its first part stays within the limit |
| `SentinelParser.PendingOverLimitIff` | core/persistant_applications/terminal_driver.cpp:82-86 | a feed leaves more than the limit pending exactly if it had more than one byte too many undecided |
| `SentinelParser.PendingIsNotBounded` | core/persistant_applications/terminal_driver.hpp:41-42 | for every bound there is a run of feeds, none longer than the reader's buffer, after which more stays pending |
| `SentinelParser.StartsPileUp` | core/persistant_applications/terminal_driver.cpp:82-88 | full reads of nothing but frame starts leave all their bytes but one each |
| `Jobs.JobStore.AppendOutput` | core/persistant_applications/terminal_driver.hpp:160-165 | output is appended to that job only |
| `Jobs.JobStore.FinishJob` | core/persistant_applications/terminal_driver.hpp:167-175 | status, code and time of that job only |
| `Jobs.JobStore.PruneJobs` | core/persistant_applications/terminal_driver.hpp:177-188 | in any order of visits, exactly the old jobs that are not running leave |
| `Jobs.LocalPtyDriver.FinishJobLocked` | core/persistant_applications/terminal_driver.cpp:360-368 | only the current job is finished, and then it is no longer current |
| `Jobs.LocalPtyDriver.HandleOutput` | core/persistant_applications/terminal_driver.cpp:436-441 | output goes to the current job |
| `Jobs.LocalPtyDriver.HandlePid` | core/persistant_applications/terminal_driver.cpp:443-454 | the process group is recorded only for the right token and the current job |
| `Jobs.LocalPtyDriver.HandleEnd` | core/persistant_applications/terminal_driver.cpp:456-462 | an END frame finishes the current job only with its id and token; code 124 makes it a timeout, any other code finished |
| `Jobs.LocalPtyDriver.HandleDeadline` | core/persistant_applications/terminal_driver.cpp:408-424 | a deadline finishes the job it was set for, if that is still current |
| `Jobs.LocalPtyDriver.FinaliseCurrent` | core/persistant_applications/terminal_driver.cpp:509-517 | at the end of the stream a current job becomes an error |
| `Jobs.LocalPtyDriver.HandleWriteFailure` | core/persistant_applications/terminal_driver.cpp:584-593 | a failed write finishes its own job only |
| `Jobs.LocalPtyDriver.Exec` | core/persistant_applications/terminal_driver.cpp:539-595 | after exec the job is registered, Running and current, or, if the shell did not take the command, an error with none current; no other record changes |
| `Jobs.JobIdsDiffer` | core/persistant_applications/terminal_driver.cpp:167-178 | ids made with different counter values differ whatever the clock says |
| `JobRuns.RunKeepsInv` | core/persistant_applications/terminal_driver.cpp:524-596 | in every run: current jobs are Running and current on one driver only, held ids are fresh, sleeping timeout threads agree with the deadlines of their jobs |
| `JobRuns.FinalityOverRuns` | core/persistant_applications/terminal_driver.hpp:167-188 | once a job has left Running its record never changes again, and a pruned id never comes back |
| `JobRuns.StepRespectsFinality` | core/persistant_applications/terminal_driver.hpp:177-188 | the same for one step, and a Running job is never pruned |
| `JobRuns.OnlyItsOwnEventsFinishAJob` | core/persistant_applications/terminal_driver.cpp:281-596 | a job leaves Running only by its own END frame, its elapsed deadline, its failed write, or the end or close of its driver; the record says which |
| `JobOutcomes.CodesOverRuns` | core/persistant_applications/terminal_driver.cpp:360-517 | in every reachable state a job that has left Running timed out exactly if its code is 124, and ended in an error only with the code -1 |
| `JobOutcomes.NoEarlyTimeout` | core/persistant_applications/terminal_driver.cpp:389-424 | over every run a timeout thread finishes a job no earlier than its timeout after it was made current, and never a job without one |
| `JobRuns.ForeignEndIsIgnored` | core/persistant_applications/terminal_driver.cpp:456-462 | an END frame changes nothing at all exactly if its token or job id is not that of the current job |
| `TerminalReader.MergedHandled` | core/persistant_applications/terminal_driver.cpp:433-463 | what the callbacks do to the job depends only on the events with adjacent outputs merged |
| `TerminalReader.JobRunsThrough` | core/persistant_applications/terminal_driver.cpp:433-518 | however the reads cut what the shell prints for the current job, that job ends with its output extended by exactly the words, with its code and status, the driver idle, other jobs untouched and nothing left in the parser |
| `TerminalReader.ReadLoop` | core/persistant_applications/terminal_driver.cpp:433-518 | the loop hands every event of the stream, the flush included, to the driver in order, and then gives up on a job still current |
| `JobRuns.OrphansComeFromBusyInstalls` | core/persistant_applications/terminal_driver.cpp:530-563 | a step leaves a Running job without owner exactly if it installs a job on a driver that is busy again |
| `JobRuns.OrphanForever` | core/persistant_applications/terminal_driver.cpp:360-368 | in every run, once a job is without owner it stays so, Running and unchanged |
| `JobRuns.OrphanKept` | core/persistant_applications/terminal_driver.cpp:360-368 | the same for one step of any thread |
| `JobRuns.OrphanIsReachable` | core/persistant_applications/terminal_driver.cpp:530-563 | a run with two calls that both saw the driver idle ends with one |
| `JobRuns.PrunedIff` | core/persistant_applications/terminal_driver.hpp:177-188 | which finished jobs a pruning takes, for a clock read before or after they finished |
| `JobRuns.JustFinishedIsLost` | core/persistant_applications/terminal_driver.hpp:178-183 | a job that finishes between the reading of the clock and the lock is pruned at once, unless the clock is almost 2^64 milliseconds behind |
| `DriverLives.ClosingIff` | core/persistant_applications/terminal_driver.cpp:281-295 | in every run, a driver's timeout thread has been told to stop, or is about to be, exactly if a close found the shell alive |
| `DriverLives.TimeoutThreadCanEndIff` | core/persistant_applications/terminal_driver.cpp:281-296 | in every reachable state the timeout thread can still end exactly if the shell is alive or a close found it alive |
| `DriverLives.RunKeepsLives` | core/persistant_applications/terminal_driver.cpp:281-336 | shells that are closing are not alive, and only timeout threads that were told to stop have ended |
| `Scheduler.SchedulerService.EnqueueTreeCandidateIfEligible` | llm/scheduler.cpp:1290-1304 | pushes one candidate with the front request's priority and the current version, exactly for an unlocked queue with work |
| `Scheduler.SchedulerService.Submit` | llm/scheduler.cpp:1705-1711 | appends the request, bumps the version, enqueues |
| `Scheduler.SchedulerService.PickNextRequest` | llm/scheduler.cpp:1306-1332 | terminates; finds something exactly if a valid candidate exists, and then one of maximal score among the valid ones; drops only invalid candidates; ties are open |
| `Scheduler.SchedulerService.ReleaseTreeKey` | llm/scheduler.cpp:1334-1348 | unlocks, erases an empty queue, re-enqueues one with work |
| `Scheduler.SubmitKeepsCovered` | llm/scheduler.cpp:1705-1711 | after a submission every idle queue still has a candidate with its current version, also if the queue was just made again at version 0 |
| `Scheduler.ReleaseKeepsCovered` | llm/scheduler.cpp:1334-1348 | the same for a release |
| `Scheduler.PickKeepsCovered` | llm/scheduler.cpp:1306-1332 | the same for a pick, whatever it threw away |
| `Scheduler.PickFailsOnlyWhenIdle` | llm/scheduler.cpp:1306-1332 | a pick can succeed exactly if some queue has work and is not locked |
| `SchedulerRuns.RunKeepsInv` | llm/scheduler.cpp:1350-1475 | coverage, locks, order and accounting hold in every reachable state of any number of workers |
| `SchedulerRuns.WorkIsFoundIffThereIsSome` | llm/scheduler.cpp:1353-1368 | in every reachable state a worker finds work exactly if there is some |
| `SchedulerRuns.LockedIffOneInFlight` | llm/scheduler.cpp:1306-1348 | a key is locked exactly if one request of that key, and only one, is in flight |
| `SchedulerRuns.PicksFollowSubmissions` | llm/scheduler.cpp:1324-1325 | for each key, what was picked followed by what is queued is what was submitted, in order |
| `SchedulerRuns.EveryRequestHasOnePlace` | llm/scheduler.cpp:1453-1466 | submitted requests are queued, in flight or completed, exactly one of the three; each completes once |
| `SchedulerRuns.InFlightIsLimited` | llm/scheduler.cpp:1547-1565 | no more requests in flight than workers, and no two of one tree other than TREE_HANDLER |
| `SchedulerUsers.SameQueueIff` | llm/scheduler.cpp:1547-1565 | in every reachable state two submitted requests share a queue exactly if both are handler conversations of one user, or neither is and their trees agree, or one is and the other's tree is named "user_" and that user |
| `SchedulerUsers.OneByOneInFlight` | llm/scheduler.cpp:1547-1565 | no two such requests are in flight together |
| `SchedulerUsers.OnlyItsOwnBlockARequest` | llm/scheduler.cpp:1547-1565 | in every reachable state, unless a request that shares its queue in this sense is in flight, a waiting request has a candidate of its queue that a worker will take |
| `SchedulerUsers.UsersDoNotBlockEachOther` | llm/scheduler.cpp:1547-1554 | a waiting conversation of a user is held up by no request of other users or trees |
| `SchedulerUsers.PriorityAges` | llm/scheduler.cpp:1279-1287 | a point of base priority weighs as much as five seconds of waiting |
| `SchedulerFreshness.SubmitKeepsFresh` | llm/scheduler.cpp:1705-1711 | if every candidate belongs to a queue, is not ahead of its version and carries a priority of its front request when valid, this stays so over a submission |
| `SchedulerFreshness.PickKeepsFresh` | llm/scheduler.cpp:1306-1332 | the same over a pick |
| `SchedulerFreshness.ReleaseFreshIff` | llm/scheduler.cpp:1334-1348 | over a release it stays so exactly if the release does not erase a queue that has candidates left |
| `SchedulerFreshness.WrapLosesFresh` | llm/scheduler.cpp:1709 | a version that starts over at 2^64 is the other way to lose it |
| `SchedulerFreshness.StepFreshIff` | llm/scheduler.cpp:1340-1345 | the same exact condition for every step of a run |
| `SchedulerFreshness.PicksGoByTheirRequest` | llm/scheduler.cpp:1301-1325 | in every run, until such an erase, a pick goes by a priority its request has had since it was enqueued, the greatest among all valid candidates |
| `SchedulerFreshness.NoWrapSoon` | llm/scheduler.cpp:1327 | no version wraps in the first 2^64 - 1 steps of a run |
| `SchedulerFreshness.StaleCandidateDecides` | llm/scheduler.cpp:1340-1345 | a run in which a leftover candidate of an erased queue hands out a request by a score it has never had |
| `Attempts.TraceTable.MarkRequestActive` | llm/scheduler.cpp:179-187 | the newest attempt of a trace becomes the current one |
| `Attempts.TraceTable.IsRequestCurrent` | llm/scheduler.cpp:189-198 | current exactly if recorded for its trace; always for an empty trace or id |
| `Attempts.TraceTable.ClearRequestIfCurrent` | llm/scheduler.cpp:200-211 | removes the record of the current attempt only |
| `Attempts.NeverCurrentAgain` | llm/scheduler.cpp:179-211 | in every run an attempt that is not current never becomes current again |
| `Attempts.MarkSupersedes` | llm/scheduler.cpp:1698 | a later attempt of the trace supersedes the earlier one at once |
| `Attempts.CurrentIff` | llm/scheduler.cpp:179-209 | in every reachable state an attempt is current exactly if it was the last of its trace to be marked and has not been cleared since |
| `Attempts.OnlySupersededAreStopped` | llm/scheduler.cpp:1376-1417 | in every reachable state only attempts that are not current are cancelled or stopped at a check |
| `Attempts.ClearRemovesOnlyItself` | llm/scheduler.cpp:1725-1729 | clearing changes the table exactly if the clearing attempt is the current one |
| `Attempts.DoomedNeverAnswers` | llm/scheduler.cpp:1198-1242 | an attempt superseded or cleared before its check after inference never stores an answer, and ends in one of the listed ways |
| `Attempts.RunKeepsInv` | llm/scheduler.cpp:1392-1414 | in every run answers are stored only after the second check, new conversations only after the first, and inputs exactly by conversation attempts without messages that got past preparation |
| `Attempts.DoomedStoresInputIff` | llm/scheduler.cpp:1399-1411 | the input of such an attempt is stored exactly if it is a conversation request without messages that was past preparation when it was superseded, or was preparing then and has got past preparation since; one that was still waiting stores nothing |
| `Attempts.PreparingStillStores` | llm/session_io.cpp:963-975 | an attempt superseded while it prepares can still store its input with its next step |
| `Attempts.DoomedIsCancelledIff` | llm/scheduler.cpp:1416-1461 | once it has ended, it was reported as cancelled exactly if it was found out while waiting, or after an inference that did not throw in a mode other than the conversation modes |
| `Attempts.SupersededInputIsStoredTwice` | llm/scheduler.cpp:1399-1451 | a run in which a superseded conversation attempt leaves its input stored, completes with an error, and its retry stores the input again |
| `StreamMerge.MergeObject` | llm/scheduler.cpp:960-998 | in any order of members: objects merge, argument strings are joined, everything else is replaced, other members stay |
| `StreamMerge.MemberMerged` | llm/scheduler.cpp:960-998 | member by member: both objects merge, two argument strings join in order, any other value of the delta wins, and what is on one side only stays |
| `StreamMerge.Aggregator.FindSlotForDelta` | llm/scheduler.cpp:1000-1022 | the slot by index, else the first with the same id, else the last one |
| `StreamMerge.SlotIs` | llm/scheduler.cpp:1000-1022 | an index that is not negative names the slot; otherwise the first slot with the id, if there is one; otherwise the last, or 0 |
| `StreamMerge.Aggregator.HandleChunk` | llm/scheduler.cpp:1025-1045 | one chunk's effect on text, slots and finish reason |
| `StreamMerge.Aggregator.Collect` | llm/scheduler.cpp:1047-1060 | the finished list: empty slots dropped, indexes removed, types supplied |
| `StreamMerge.FinishedHas` | llm/scheduler.cpp:1047-1060 | a finished call has no index, every other member as it was, and "function" for a missing, empty or malformed type |
| `StreamMerge.RunChatOnce` | llm/scheduler.cpp:953-1062 | the response assembled from all chunks |
| `StreamMerge.SlotsAreIndependent` | llm/scheduler.cpp:1000-1039 | with explicit indexes slot i is the merge of the deltas of index i alone, whatever comes in between |
| `StreamMerge.InterleavingDoesNotMatter` | llm/scheduler.cpp:1023-1061 | streams that agree index by index give the same response |
| `StreamMerge.FragmentsAreJoined` | llm/scheduler.cpp:980-984 | a call whose arguments come in fragments ends with the fragments joined |
| `AnthropicStream.NormalizeResponseContent` | llm/adapters/anthropic.hpp:189-217 | text of the text blocks in order, calls of the tool blocks in order |
| `AnthropicStream.AnthropicStreamState.ProcessEvent` | llm/adapters/anthropic.hpp:225-316 | each event's effect on the accumulator, the chunks sent, and whether the stream goes on or throws |
| `AnthropicStream.AnthropicStreamState.ProcessEvents` | llm/adapters/openai_compatible.hpp:266-298 | events are handled up to the first that stops the stream |
| `AnthropicStream.AnthropicStreamState.SendCalls` | llm/adapters/anthropic.hpp:304-309 | the accumulated calls go out by ascending index |
| `AnthropicStream.AccumulatesDescription` | llm/adapters/anthropic.hpp:253-302 | after events that describe parts of a message the accumulator holds exactly the calls started, with the arguments sent so far |
| `AnthropicStream.StreamedMessage` | llm/adapters/anthropic.hpp:225-316 | a message serialised with tool pieces cut and interleaved arbitrarily is read as its text and its calls in block order |
| `AnthropicStream.StreamingAgreesIff` | llm/adapters/anthropic.hpp:189-316 | events then merging give the content and tool calls of the non-streaming reader exactly if each call's pieces join to its printed input |
| `AnthropicStream.EmptyInputDiffers` | llm/adapters/anthropic.hpp:253-270 | a call with an empty input and no pieces comes out differently |
| `SseEvents.CutAppend` | llm/adapters/openai_compatible.hpp:299-337 | lines cut from a buffer as pieces arrive are the lines of the whole body |
| `SseEvents.PendingIffUnfinished` | llm/adapters/openai_compatible.hpp:277-336 | an event is left to dispatch exactly if a line with data is not followed by a blank line |
| `SseEvents.AfterBodyIff` | llm/adapters/openai_compatible.hpp:355-363 | at most one event is dispatched after the body, and there is one exactly if a line with data is not followed by a complete blank line |
| `SsePrinting.PrintedMessagesComeBack` | llm/adapters/openai_compatible.hpp:299-342 | messages and comments printed line by line, with LF or CR LF, come back as one event for each message, with its name and its data lines joined, as soon as its blank line is there |
| `SsePrinting.LastMessageComesBack` | llm/adapters/openai_compatible.hpp:355-363 | a last message without its blank line comes back too, once the body has ended |
| `SsePrinting.UnendedLineComesBack` | llm/adapters/openai_compatible.hpp:355-363 | not even its last line needs a line end |
| `SsePrinting.MessageComesBackIff` | llm/adapters/openai_compatible.hpp:322-329 | a message comes back with its own data exactly if its first data line is not empty: empty lines in front are lost |
| `AnthropicCall.SseReader.FlushEvent` | llm/adapters/openai_compatible.hpp:277-296 | dispatches the collected event, if it has data, and records a stop or a throw |
| `AnthropicCall.SseReader.HandleLine` | llm/adapters/openai_compatible.hpp:307-336 | one line's effect on the event being collected, dispatched events included |
| `AnthropicCall.SseReader.ProcessAvailableLines` | llm/adapters/openai_compatible.hpp:299-342 | the loop handles the complete lines in order until an event stops it, and drops exactly these from the buffer |
| `AnthropicCall.SseReader.OnChunk` | llm/adapters/openai_compatible.hpp:344-353 | after each piece the reader stands where the input so far puts it, and says whether to go on |
| `AnthropicCall.SseReader.Finish` | llm/adapters/openai_compatible.hpp:355-363 | after the body, all events of the body have been dispatched, the last one without a blank line included |
| `AnthropicCall.CallChatStream` | llm/adapters/anthropic.hpp:345-367 | the result depends on the body alone, not on its pieces: a stop or throw inside the body fails the call, a missing end is supplied |
| `AnthropicCall.CallAnswersIff` | llm/adapters/openai_compatible.hpp:241-257 | for a body that carries a message, the call answers exactly if the end of the message comes last and no blank line follows it |
| `AnthropicCall.WellFormedBodyFails` | llm/adapters/openai_compatible.hpp:241-257 | for a body that ends in a blank line it always fails |
| `AnthropicEvents.CallAnthropic` | llm/adapters/anthropic.hpp:345-367 | the streaming call with the reading of event data in place: the result depends on the body alone |
| `AnthropicEvents.DecodePrinted` | llm/adapters/anthropic.hpp:225-314 | the data of a printed event is read back as that event, whether its kind is on its own line or only in the data |
| `AnthropicEvents.DecodePrintedError` | llm/adapters/anthropic.hpp:247-251 | an error event is read with the prefix of the adapter |
| `AnthropicEvents.PrintedMessage` | llm/adapters/anthropic.hpp:225-367 | a message printed event by event, in pieces of any size, is answered with its texts and calls if the blank line after its end is missing, and fails if it is there |
| `AnthropicEvents.TextAndCall` | llm/adapters/anthropic.hpp:225-367 | a text and a call in two pieces, printed: the answer is exactly the text and the one call with its id, name and joined arguments |
| `ProcessRegistry.Registry.CreateTreeLocked` | core/process_registry.cpp:433-467 | the id, and a tree that starts (over) as active |
| `ProcessRegistry.Registry.RegisterProcess` | core/process_registry.cpp:17-82 | tables, index, children and root for each way to register, and every refusal |
| `ProcessRegistry.Registry.OnProcessRegistered` | core/process_registry.cpp:517-523 | the pid joins its tree's and its parent's sets |
| `ProcessRegistry.Registry.MarkProcessKilled` | core/process_registry.cpp:279-287 | the two stores of a kill |
| `ProcessRegistry.Registry.TerminateProcess` | core/process_registry.cpp:289-340 | nothing for the dead or unknown; otherwise out of both indexes, emptied sets erased, time recorded |
| `ProcessRegistry.Registry.CleanupHistoricalProcesses` | core/process_registry.cpp:351-367 | in any order of visits, exactly the terminated processes past retention leave |
| `ProcessRegistry.Registry.KillTreeProcesses` | core/process_registry.cpp:253-277 | returns exactly the living indexed pids and marks them and the tree |
| `ProcessRegistry.Registry.MarkTreeCompletedIfDone` | core/process_registry.cpp:369-411 | completes exactly an active tree other than the handler's with an empty index and only final statuses |
| `ProcessRegistry.Registry.MarkTreeFailed` | core/process_registry.cpp:413-425 | only an active tree fails |
| `ProcessRegistry.KillProcesses` | core/termination_engine.cpp:32-61 | the registry after the engine's loop over its targets |
| `ProcessRegistry.KillAllKeepsIndex` | core/termination_engine.cpp:32-61 | killing takes no pid out of any index; each living target is dead without a termination time |
| `RegistryLaws.RegisterIff` | core/process_registry.cpp:17-51 | when a registration succeeds, under which pid and in which tree; a refusal uses up the pid and changes nothing else |
| `RegistryLaws.RegisterAdds` | core/process_registry.cpp:53-82 | a registered process is in the table, in the index of its tree and among the children of its parent, and nothing else is added |
| `RegistryLaws.RegisterRoots` | core/process_registry.cpp:30-80 | who becomes the root of which tree |
| `RegistryLaws.TerminateLeaves` | core/process_registry.cpp:289-340 | a terminated process leaves the index of its tree, the children of its parent and its own list of children, and no other set changes |
| `RegistryLaws.CleanupDropsIff` | core/process_registry.cpp:351-367 | a process is dropped exactly if it is dead, was terminated, and that longer ago than the retention; a stamp ahead of the clock counts as long past |
| `RegistryLaws.KillTreeMarks` | core/process_registry.cpp:253-277 | the tree becomes killed, and of the processes exactly the living ones in its index; they stay alive and indexed |
| `RegistryLaws.FailsIff` | core/process_registry.cpp:413-425 | a tree fails exactly if it was active |
| `RegistryRuns.RunKeeps` | core/process_registry.cpp:17-82 | exact indexes, fresh ids, live children and empty completed trees are kept by every step of every run |
| `RegistryRuns.IndexIsExact` | core/process_registry.cpp:289-340 | in every reachable state a tree's index is exactly its processes in the table that were never terminated, which includes all living ones |
| `RegistryRuns.ZombieForever` | core/process_registry.cpp:297-303 | a process dead without a termination time stays in the table and the index in every later state, and its tree is never completed |
| `RegistryRuns.KillingBlocksCompletion` | core/termination_engine.cpp:35-56 | after the engine kills a living process its tree is never completed from then on |
| `RegistryRuns.TreeOnlyShrinks` | core/process_registry.cpp:30-51 | a generated tree that left active never returns to it, admits no process, and stays killed once killed |
| `RegistryRuns.CompletedStaysDead` | core/process_registry.cpp:369-411 | a completed tree has no living process in that or any later state |
| `RegistryRuns.CompletesIff` | core/process_registry.cpp:369-411 | a tree can complete exactly if it is generated, active, and all its processes in the table were terminated and report a final status |
| `RegistryRuns.NextIdFresh` | core/process_registry.cpp:433-443 | the next generated id names no tree and no process belongs to it |
| `TerminalRegistry.ColonUsersShare` | core/persistant_applications/terminal_registry.hpp:205-212 | a user name with a colon shares each of its session ids with the user before the colon |
| `TerminalRegistry.UsersShareIdsIff` | core/persistant_applications/terminal_registry.hpp:205-212 | two users can have a session id in common exactly if they are the same or one name, followed by a colon, starts the other |
| `TerminalRegistry.KeysInjective` | core/persistant_applications/terminal_registry.hpp:205-212 | between users that do not nest so, the session id determines user and name |
| `TerminalRegistry.Registry.GetOrCreateSession` | core/persistant_applications/terminal_registry.cpp:34-132 | the whole new map, the answer, and the driver to be closed, for every path |
| `TerminalRegistry.Registry.CountActive` | core/persistant_applications/terminal_registry.cpp:88-92 | the number of active sessions of a user |
| `TerminalRegistry.Registry.ExtractLocked` | core/persistant_applications/terminal_registry.cpp:201-208 | one session leaves the map and its driver is handed over |
| `TerminalRegistry.Registry.KillSession` | core/persistant_applications/terminal_registry.cpp:210-241 | exactly the named session, or all of the user's, leave with their drivers |
| `TerminalRegistry.Registry.DetectDeadScan` | core/persistant_applications/terminal_registry.cpp:282-292 | in any order of visits, exactly the active sessions whose driver is dead at the scan are found |
| `TerminalRegistry.Registry.DetectDeadMark` | core/persistant_applications/terminal_registry.cpp:294-306 | the sessions of the given ids are marked dead, whatever they hold by then |
| `TerminalRegistry.Registry.EvictDeadAndIdle` | core/persistant_applications/terminal_registry.cpp:311-341 | exactly the inactive and the idle sessions leave with their drivers |
| `TerminalRegistry.GrantMeansHealthy` | core/persistant_applications/terminal_registry.cpp:34-132 | a grant leaves a healthy or new session of the id, a refusal leaves none, other sessions stay |
| `TerminalLaws.GrantIff` | core/persistant_applications/terminal_registry.cpp:34-132 | when a session is found, made or refused, for which reason, and what the map is then, in terms of the sessions there |
| `TerminalLaws.KillTakes` | core/persistant_applications/terminal_registry.cpp:210-241 | a kill takes the one session of its name, or, without a name, exactly the sessions of that user |
| `TerminalLaws.EvictTakes` | core/persistant_applications/terminal_registry.cpp:311-341 | exactly the sessions that are not active or not used within the timeout |
| `TerminalLaws.ScanAndMark` | core/persistant_applications/terminal_registry.cpp:282-306 | a scan finds the active sessions without a living driver; a mark changes the status of the given sessions and nothing else |
| `TerminalLaws.ExtractMoves` | core/persistant_applications/terminal_registry.cpp:201-208 | what is extracted leaves, the rest stays, and the drivers handed over are those of the extracted |
| `TerminalRegistry.IdleIff` | core/persistant_applications/terminal_registry.cpp:311-322 | when a session counts as idle, clock readings that went back included |
| `SessionRuns.LimitsHold` | core/persistant_applications/terminal_registry.cpp:79-99 | in every run the sessions stay within the total limit and each user's active ones within the user limit |
| `SessionRuns.EveryDriverInOnePlace` | core/persistant_applications/terminal_registry.cpp:201-256 | in every run each driver made is in one session, or in the hands of one caller, or closed once, and in no two of these |
| `SessionRuns.StaleScanTakesLivingDriver` | core/persistant_applications/terminal_registry.cpp:282-309 | a run in which a session re-created after the scan is marked dead and its living driver is evicted |
| `SessionRuns.HealthyMarkedDeadIff` | core/persistant_applications/terminal_registry.cpp:282-309 | for every reachable state at the scan and every run from there to the mark, a healthy session is marked dead exactly if its id was scanned dead and some step in between made a session of that id |
| `SessionRuns.RunKeepsDriver` | core/persistant_applications/terminal_registry.cpp:54-120 | a session present after a run that made none of its id was there before, with the same driver |
| `PrepareCoalescer.Coalescer.EnterKey` | execution/executioner.cpp:361-370 | the first to enter a key gets a new slot and leads, the others share it |
| `PrepareCoalescer.Coalescer.Finish` | execution/executioner.cpp:372-379 | the slot is ready and the key free |
| `PrepareCoalescer.Coalescer.Fail` | execution/executioner.cpp:381-390 | the slot failed with the error and the key is free |
| `PrepareCoalescer.Coalescer.Wait` | execution/executioner.cpp:393-409 | ready exactly if the slot is; the error the leader settled, or the peer timeout while there is none |
| `PrepareCoalescer.Coalescer.Follow` | execution/executioner.cpp:1065-1072 | a follower launches after a ready verdict, and otherwise reports its peer's error or the timeout |
| `PrepareCoalescer.Coalescer.Lead` | execution/executioner.cpp:957-1064 | every exit of the leader settles its own slot once and frees its own key; it goes on to launch exactly if it settled the slot as ready, which is exactly if the cache is usable |
| `CoalescerRuns.OneLeaderPerKey` | execution/executioner.cpp:361-370 | in every run at most one leader of a key is between entry and erase |
| `CoalescerRuns.EraseRemovesOwnSlot` | execution/executioner.cpp:411-414 | a leader's erase removes the entry of its own slot and no other |
| `CoalescerRuns.VerdictIsFinal` | execution/executioner.cpp:372-390 | a settled slot never changes in any later state |
| `CoalescerRuns.FollowersAgreeWithLeader` | execution/executioner.cpp:393-409 | in every run a follower that did not time out launches exactly if its leader does, and otherwise reports the error its leader settled |
| `CoalescerRuns.TimedOutFollowersReportIt` | execution/executioner.cpp:393-403 | in every run a follower that timed out reports the peer timeout |
| `CoalescerRuns.TimeoutOnlyWhileLeading` | execution/executioner.cpp:393-403 | a follower can time out only while its leader is still at work |
| `CoalescerRuns.IdleIsClean` | execution/executioner.cpp:372-390 | when no leader is at work every key is free and every slot settled |

## Left out

- Sockets, pseudo-terminals, processes, signals, file locks and clocks: their answers are inputs or free steps of the models.
- JSON text: parsing and printing are not modelled. Both are arbitrary functions; the round trips of `AnthropicEvents` ask of them that parsing undoes printing and that a printed value takes one line. Numbers with fractions are left out.
- JSON type errors other than those that end a stream or a stale conversation attempt, and members with the wrong type inside a delta that has no index (non-string ids).
- The token callback of a streamed chat, usage figures, and the finish reason of the non-streaming reader, which is the provider's while the streaming one is always "stop".
- The OpenAI adapter's own events and requests, tool schemas, endpoints, storage providers, session summaries, caches of conversations and the handler's session map.
- Allocation failures, in particular one between settling a slot and returning the leader's reply.
- Integer widths that no realistic input reaches: table entries of the edit distance, the process and tree counters beyond 64 bits, container sizes. Widths that matter (frame lengths, scheduler versions, ages, the SHA-256 counters) are modelled.
- Case folding outside ASCII and the locale of `std::tolower`; overlong UTF-8 forms and surrogates, which the program accepts too.
- Levenshtein.FilenameScore: scores are exact reals, not doubles, because rounding is not what the score is for. The same holds for `LevenshteinScore` and for the scheduler's priorities.
- Sha256Tables.TableOfPrimes: does not say that no prime is missing between the entries, only that they are primes and ascend.
- Framing.EncodeInto: shifts and masks of unsigned words are written as divisions and remainders.
- Heartbeat times, memory figures, LLM request counts and creation times of the process registry, and the supervisor's policies that decide whom to kill.
- Sending signals to a job (`cancel_current_job`, the kill at a deadline): only what happens to the job's record is modelled.
- Starvation freedom of the scheduler, which its frozen scores do not give, and fairness among threads.
- Windows branches, which repeat the POSIX state logic.
