# A verified model of the SL4A interpreter output tee

`InterpreterProcess` runs an interpreter as a child process, and `getIn()` hands out any number of readers over the child's output. Those readers are `LoggingBufferedReader`s. The output stream can be consumed only once, yet every reader must see the whole output from its first character. To make that work, every character pulled from the child is appended to one shared log, `mLog`, whose length is kept by hand in `mLogLength`. Each reader keeps its own cursor into the log, `mmPos`. A reader whose cursor is behind the end of the log replays from the log. A reader at the end pulls from the child, appends what it got, and then returns it. Line reads also keep a per-reader flag, `mmSkipLF`, so that an LF following a replayed CR is swallowed.

The project has six modules:

- `JavaChars` (chars.dfy): Java's 16-bit `char`, the two line terminators, and the narrowing cast `(char)`.
- `ChildOutput` (stream.dfy): what the `BufferedReader` superclass delivers from the child output. This is `super.read()`, `super.read(cbuf, off, len)` and `super.readLine()` over the characters not yet read.
- `TeeSpec` (tee_spec.dfy): one call on a reader, as a pure function of the log, the unread output, the cursor and the CR flag. The functions model the code as written.
- `Interpreter` (process.dfy): the classes `InterpreterProcess` and `LoggingBufferedReader`, with imperative methods over the shared fields and the caller's `char[]` buffer. Each method is proved to change the state exactly as its `TeeSpec` function says, and to keep `mLogLength == |mLog|` and the cursor within the log.
- `TeeFixes` (findings.dfy): six departures from the `Reader` contract, each with a counterexample on the code as written and a corrected step. They cover `read()` at end of stream, a bulk read at end of stream, the terminator of a replayed line, `readLine()` at end of stream, a CR LF pair split between the log and the child output, and the private buffer of each reader.
- `TeeProperties` (properties.dfy): promises that span calls and readers:
  - any interleaving of corrected single and bulk reads by any number of readers that pull from one shared stream of unread child output: every reader's caller receives a prefix of the child output, in order (in the source each reader pulls through its own buffer, and then this fails; see Findings);
  - a read that the log can satisfy never pulls from the child;
  - line splitting over LF, CR LF and lone CR;
  - a second reader replaying the lines a first reader read live.

The class methods model the code as written, including the departures listed under Findings. The theorems that span readers are stated over the corrected steps. `ReplayedLinesKeepTheirTerminator` shows that the replay theorem fails for the line read as written.

`LoggingBufferedReader.readLine()` overrides `BufferedReader.readLine()`, which returns a line without its terminator. This class strips the terminator only on the live path; a replayed line keeps it. The model follows the code, and the difference is the third finding.

## Model

| member | source | states |
|---|---|---|
| JavaChars.NarrowToChar16 | android/ScriptingLayer/src/com/googlecode/android_scripting/interpreter/InterpreterProcess.java:149-150 | The cast `(char) c` leaves a value already in `char` range unchanged, and otherwise keeps it modulo 2^16. |
| JavaChars.EndOfStreamCast | android/ScriptingLayer/src/com/googlecode/android_scripting/interpreter/InterpreterProcess.java:149 | `(char) -1`, the end-of-stream value cast to `char`, is 0xFFFF. |
| ChildOutput.ReadChar | android/ScriptingLayer/src/com/googlecode/android_scripting/interpreter/InterpreterProcess.java:149 | `super.read()` returns -1 and consumes nothing at end of stream. Otherwise it returns the first unread character and consumes exactly that one. |
| ChildOutput.ReadChunk | android/ScriptingLayer/src/com/googlecode/android_scripting/interpreter/InterpreterProcess.java:197 | `super.read(cbuf, off, len)` with `len > 0` returns -1 exactly at end of stream. Otherwise it returns a count between 1 and `len`, equal to the number of characters delivered. Those characters are the front of the stream, and exactly they are consumed. |
| ChildOutput.NextLine | android/ScriptingLayer/src/com/googlecode/android_scripting/interpreter/InterpreterProcess.java:266 | `super.readLine()` returns text holding no LF or CR, and always consumes something. |
| ChildOutput.NextLineSplits | android/ScriptingLayer/src/com/googlecode/android_scripting/interpreter/InterpreterProcess.java:266 | The returned line is the front of the stream. It is followed by exactly one terminator (LF, CR LF, or a CR not followed by LF), or by the end of the stream, and everything after that is left unread. |
| ChildOutput.NextLineCons | android/ScriptingLayer/src/com/googlecode/android_scripting/interpreter/InterpreterProcess.java:266 | A character that is not a terminator starts the line that `super.readLine()` returns. |
| ChildOutput.NextLineIsNeverLF | android/ScriptingLayer/src/com/googlecode/android_scripting/interpreter/InterpreterProcess.java:267-270 | `super.readLine()` never returns "\n", so the special case guarded by that test is never taken. |
| TeeSpec.ReadStep | android/ScriptingLayer/src/com/googlecode/android_scripting/interpreter/InterpreterProcess.java:131-160 | `read()` behind the tail returns `mLog[mmPos]` and changes neither the log nor the child output. At the tail it consumes one character, appends it and returns it; at end of stream it appends and returns 0xFFFF. Either way the cursor advances by exactly 1, the old log is a prefix of the new, and the value returned is the log character under the old cursor. |
| TeeSpec.BulkPull | android/ScriptingLayer/src/com/googlecode/android_scripting/interpreter/InterpreterProcess.java:197-205 | The pulling half of `read1(cbuf, off, len)` at the tail. The characters pulled are appended to the log verbatim, and the cursor ends at the new tail. At most `len` characters are pulled, and the count equals them. -1 is returned exactly when `len > 0` and the child output has ended. |
| TeeSpec.BulkRead | android/ScriptingLayer/src/com/googlecode/android_scripting/interpreter/InterpreterProcess.java:163-213 | `read(cbuf, off, len)` delivers exactly the log slice from the old cursor to the new one, and the old log is a prefix of the new. The number delivered is `min(len, characters in the log past the cursor + characters the child has left)`. Only characters the child delivered are appended, and the log grows only when the cursor ends at the new tail. -1 is returned exactly when the request reaches past the log and the child output has ended; any other return value is the number delivered. |
| TeeSpec.BulkReadAtTail | android/ScriptingLayer/src/com/googlecode/android_scripting/interpreter/InterpreterProcess.java:164-165 | At the tail, `read(cbuf, off, len)` is its pulling half alone. |
| TeeSpec.ScanLine | android/ScriptingLayer/src/com/googlecode/android_scripting/interpreter/InterpreterProcess.java:221-237 | The replay loop stops either just after a terminator, having consumed at least one character past the line start, or at the tail of the log. |
| TeeSpec.ScanKeepsLogText | android/ScriptingLayer/src/com/googlecode/android_scripting/interpreter/InterpreterProcess.java:221-237 | What the replay loop accumulates is exactly the log text from the line start to where it stopped, and when it stops early, the last of it is a terminator. The line start is one past a swallowed LF if the flag was set. |
| TeeSpec.ScanStopsAtFirstTerminator | android/ScriptingLayer/src/com/googlecode/android_scripting/interpreter/InterpreterProcess.java:226-236 | The replay loop stops at the first LF or CR after the line start. Afterwards the flag is set exactly when that terminator was a CR; if the loop ran off the tail, it is cleared unless the loop began there. |
| TeeSpec.LiveLine | android/ScriptingLayer/src/com/googlecode/android_scripting/interpreter/InterpreterProcess.java:266-275 | The live path of `readLine1()` appends exactly the line `super.readLine()` returned, followed by one LF, and consumes it from the child output. It returns the replayed prefix followed by that line and leaves the cursor at the new tail. |
| TeeSpec.ReadLineStep | android/ScriptingLayer/src/com/googlecode/android_scripting/interpreter/InterpreterProcess.java:216-282 | `readLine()` grows the log only by appending. If the log is unchanged, so is the child output, and the cursor has moved forward. If the log changed, the call appended exactly the next child line plus LF, and the cursor is at the new tail. |
| TeeSpec.ReplayedLineIsLogText | android/ScriptingLayer/src/com/googlecode/android_scripting/interpreter/InterpreterProcess.java:220-237 | A line found in the log is returned as the log text from the line start through its terminator. Neither the log nor the child output changes. |
| TeeSpec.ScanToTailKeepsRest | android/ScriptingLayer/src/com/googlecode/android_scripting/interpreter/InterpreterProcess.java:221-238 | When the replay loop reaches the tail, it has kept every log character from the line start on. |
| TeeSpec.LiveLineIsLogText | android/ScriptingLayer/src/com/googlecode/android_scripting/interpreter/InterpreterProcess.java:239-275 | A line that runs past the tail is returned as all the log text from the line start to the new tail, except the LF the reader appended. |
| Interpreter.CopyChars | android/ScriptingLayer/src/com/googlecode/android_scripting/interpreter/InterpreterProcess.java:168 | `getChars` into `cbuf` writes exactly the given characters from `off` on and leaves the rest of the array unchanged. |
| Interpreter.InterpreterProcess.constructor | android/ScriptingLayer/src/com/googlecode/android_scripting/interpreter/InterpreterProcess.java:52-56 | A new process has an empty log of length 0. |
| Interpreter.InterpreterProcess.GetIn | android/ScriptingLayer/src/com/googlecode/android_scripting/interpreter/InterpreterProcess.java:107-112 | Returns null exactly when the output stream does not exist. Otherwise it returns a fresh reader over this process, with its cursor at 0 and its CR flag clear. |
| Interpreter.LoggingBufferedReader.constructor | android/ScriptingLayer/src/com/googlecode/android_scripting/interpreter/InterpreterProcess.java:116-128 | A new reader starts at log position 0 with the CR flag clear. |
| Interpreter.LoggingBufferedReader.SuperRead | android/ScriptingLayer/src/com/googlecode/android_scripting/interpreter/InterpreterProcess.java:149 | The superclass `read()` consumes from the child output as `ReadChar` says. |
| Interpreter.LoggingBufferedReader.SuperReadInto | android/ScriptingLayer/src/com/googlecode/android_scripting/interpreter/InterpreterProcess.java:197 | The superclass `read(cbuf, off, len)` writes the delivered characters into `cbuf` at `off` and consumes them. |
| Interpreter.LoggingBufferedReader.SuperReadLine | android/ScriptingLayer/src/com/googlecode/android_scripting/interpreter/InterpreterProcess.java:266 | The superclass `readLine()` returns and consumes the next line, as `NextLine` says. |
| Interpreter.LoggingBufferedReader.Read | android/ScriptingLayer/src/com/googlecode/android_scripting/interpreter/InterpreterProcess.java:131-139 | `read()` returns and changes the log, child output and cursor exactly as `ReadStep`, and keeps `mLogLength == |mLog|` and the cursor within the log. |
| Interpreter.LoggingBufferedReader.Read1 | android/ScriptingLayer/src/com/googlecode/android_scripting/interpreter/InterpreterProcess.java:141-160 | `read1()`, including its check-again branch and the `(char)` cast, behaves as `ReadStep` and keeps the length invariant. |
| Interpreter.LoggingBufferedReader.ReadInto | android/ScriptingLayer/src/com/googlecode/android_scripting/interpreter/InterpreterProcess.java:163-183 | `read(cbuf, off, len)` returns and changes the log, child output and cursor exactly as `BulkRead`. `cbuf` has exactly the delivered characters written from `off` on. The length invariant is kept. |
| Interpreter.LoggingBufferedReader.ReadInto1 | android/ScriptingLayer/src/com/googlecode/android_scripting/interpreter/InterpreterProcess.java:185-213 | `read1(cbuf, off, len)`, including its check-again replay, behaves as `BulkRead` on the returned value, the shared state, the cursor and `cbuf`. |
| Interpreter.LoggingBufferedReader.ReplayInto | android/ScriptingLayer/src/com/googlecode/android_scripting/interpreter/InterpreterProcess.java:189-195 | The replay copy advances the cursor by `min(mLogLength, mmPos + len) - mmPos` and writes exactly that log slice into `cbuf` at `off`. |
| Interpreter.LoggingBufferedReader.PullInto | android/ScriptingLayer/src/com/googlecode/android_scripting/interpreter/InterpreterProcess.java:197-205 | The pull at the tail behaves as `BulkPull`: `cbuf` gets the pulled characters at `off`, and they are appended to the log verbatim. |
| Interpreter.LoggingBufferedReader.ReplayLine | android/ScriptingLayer/src/com/googlecode/android_scripting/interpreter/InterpreterProcess.java:247-264 | The `while` loop over the log ends with the buffer, cursor, flag and found-a-terminator outcome that `ScanLine` gives. |
| Interpreter.LoggingBufferedReader.ReadLine | android/ScriptingLayer/src/com/googlecode/android_scripting/interpreter/InterpreterProcess.java:216-242 | `readLine()` returns and changes the state exactly as `ReadLineStep`, and keeps the length invariant. |
| Interpreter.LoggingBufferedReader.ReadLine1 | android/ScriptingLayer/src/com/googlecode/android_scripting/interpreter/InterpreterProcess.java:244-282 | `readLine1()` replays again and otherwise takes one live line, appending it plus LF, exactly as `ReadLineStep`. |
| TeeFixes.ReadAtEndReturnsFFFF | android/ScriptingLayer/src/com/googlecode/android_scripting/interpreter/InterpreterProcess.java:149-151 | As written, `read()` at the tail with the child output ended returns 0xFFFF, not -1, and appends 0xFFFF to the log. |
| TeeFixes.ReadStepFixed | android/ScriptingLayer/src/com/googlecode/android_scripting/interpreter/InterpreterProcess.java:141-160 | Corrected `read()` returns -1 exactly at the tail with the child output ended, and then changes nothing. Otherwise it returns the log character under the old cursor and advances by 1. The log followed by the unread output never changes. |
| TeeFixes.BulkReadLosesReplayedChars | android/ScriptingLayer/src/com/googlecode/android_scripting/interpreter/InterpreterProcess.java:174-178 | As written, a bulk read of 5 over the log "ab" from position 0 with the child output ended copies "ab" and moves the cursor to 2, yet returns -1. |
| TeeFixes.BulkReadFixed | android/ScriptingLayer/src/com/googlecode/android_scripting/interpreter/InterpreterProcess.java:163-183 | Corrected bulk read returns -1 exactly when nothing at all can be delivered, and then changes nothing. Otherwise it returns the number delivered, which is exactly how far the cursor moved. |
| TeeFixes.ReplayedLineKeepsTerminator | android/ScriptingLayer/src/com/googlecode/android_scripting/interpreter/InterpreterProcess.java:230-236 | As written, a reader pulling "a" gets "a" and logs "a\n", and a second reader replaying that log gets "a\n". |
| TeeFixes.ReadLineStepFixed | android/ScriptingLayer/src/com/googlecode/android_scripting/interpreter/InterpreterProcess.java:216-242 | Corrected `readLine()` changes the state exactly as the step as written. Its line is that step's line, less at most one final character. |
| TeeFixes.FixedLineIsLogText | android/ScriptingLayer/src/com/googlecode/android_scripting/interpreter/InterpreterProcess.java:216-282 | The corrected line holds no LF or CR, and it is the log text from the line start up to the terminator, replayed or live. |
| TeeFixes.LiveLineAtEnd | android/ScriptingLayer/src/com/googlecode/android_scripting/interpreter/InterpreterProcess.java:266-273 | As written, when `super.readLine()` returns null, `readLine1()` throws without updating `mLogLength`: with a CR pending, the log is unchanged; otherwise "null" and an LF have already been appended. |
| TeeFixes.LineAtEndBreaksLogLength | android/ScriptingLayer/src/com/googlecode/android_scripting/interpreter/InterpreterProcess.java:271-273 | With no CR pending, the failed call leaves the log five characters longer than `mLogLength`, the old log still in front. |
| TeeFixes.SplitCRLFGivesEmptyLine | android/ScriptingLayer/src/com/googlecode/android_scripting/interpreter/InterpreterProcess.java:266-270 | As written, and with the terminator correction alone, a reader at the tail of the log "a\r" with the CR flag set, over the child output "\nb", gets the empty line. |
| TeeFixes.AfterPendingLF | android/ScriptingLayer/src/com/googlecode/android_scripting/interpreter/InterpreterProcess.java:267-270 | The output a live line is read from is the child output, less one leading LF exactly when a CR is pending and the output starts with LF. |
| TeeFixes.ReadLineOrEnd | android/ScriptingLayer/src/com/googlecode/android_scripting/interpreter/InterpreterProcess.java:216-282 | Corrected `readLine()` returns end of stream exactly when the replay meets no terminator and nothing is left after the pending LF; then the log is unchanged, the cursor is at the tail and the flag is clear. A replayed line is the terminator-stripped one. A live line is the step as written over the output without the pending LF, and the flag ends clear. |
| TeeFixes.CorrectedLineIsLogText | android/ScriptingLayer/src/com/googlecode/android_scripting/interpreter/InterpreterProcess.java:216-282 | Every line the corrected `readLine()` returns holds no LF or CR, and is the log text from the line start up to the terminator. |
| TeeFixes.SplitCRLFReadsAsOne | android/ScriptingLayer/src/com/googlecode/android_scripting/interpreter/InterpreterProcess.java:266-270 | With the correction, a CR in the log followed by an LF in the child output reads as the one terminator: the result is the same as if the LF were not there and no CR were pending. |
| TeeFixes.BufferedReadOne | android/ScriptingLayer/src/com/googlecode/android_scripting/interpreter/InterpreterProcess.java:107-112 | `read()` with a private buffer per reader keeps every cursor within the log, moves only the calling reader's cursor and buffer, and pulls from the child output only when that buffer is empty, into the log and the buffer in order. |
| TeeFixes.SecondReaderPullsPastFirstBuffer | android/ScriptingLayer/src/com/googlecode/android_scripting/interpreter/InterpreterProcess.java:107-112 | Reader A pulls and fills its buffer; reader B replays and then pulls the character after A's buffer, which the log records second. |
| TeeFixes.PrivateBuffersReorderTheLog | android/ScriptingLayer/src/com/googlecode/android_scripting/interpreter/InterpreterProcess.java:107-112 | With buffers of any size `fill` and an output longer than `fill`, reads by A, B, B, A, A log output characters 0, `fill` and 1, which is not a prefix of the output. |
| TeeProperties.Apply | android/ScriptingLayer/src/com/googlecode/android_scripting/interpreter/InterpreterProcess.java:131-213 | A `getIn()`, corrected `read()` (`ReadStepFixed`) or corrected `read(cbuf, off, len)` (`BulkReadFixed`) call only appends to the log, keeps every cursor within it, and never changes the log followed by the unread child output. |
| TeeProperties.Run | android/ScriptingLayer/src/com/googlecode/android_scripting/interpreter/InterpreterProcess.java:131-213 | The same holds for any sequence of such calls, with the corrected steps, by any readers. |
| TeeProperties.Started | android/ScriptingLayer/src/com/googlecode/android_scripting/interpreter/InterpreterProcess.java:107-112 | A started process with no readers is consistent: its log is empty and the unread output is all the child wrote. |
| TeeProperties.OthersStayFaithful | android/ScriptingLayer/src/com/googlecode/android_scripting/interpreter/InterpreterProcess.java:116-120 | A call on one reader leaves every other reader's view of the log as it was, because the log is only appended to. |
| TeeProperties.ReadOneKeepsFaithful | android/ScriptingLayer/src/com/googlecode/android_scripting/interpreter/InterpreterProcess.java:131-160 | After a corrected `read()` (`ReadStepFixed`), what the reader's caller has received is still the log up to its cursor. |
| TeeProperties.ReadManyKeepsFaithful | android/ScriptingLayer/src/com/googlecode/android_scripting/interpreter/InterpreterProcess.java:163-213 | After a corrected bulk read (`BulkReadFixed`), what the reader's caller has received is still the log up to its cursor. |
| TeeProperties.ApplyKeepsFaithful | android/ScriptingLayer/src/com/googlecode/android_scripting/interpreter/InterpreterProcess.java:107-213 | Every call, with the corrected `read()` and bulk read, keeps each reader's received characters equal to the log up to its cursor. |
| TeeProperties.RunKeepsFaithful | android/ScriptingLayer/src/com/googlecode/android_scripting/interpreter/InterpreterProcess.java:107-213 | The same invariant holds across any sequence of calls with the corrected steps. |
| TeeProperties.EveryReaderSeesTheOutput | android/ScriptingLayer/src/com/googlecode/android_scripting/interpreter/InterpreterProcess.java:107-213 | Whatever corrected `read()` and bulk read calls the readers make, in any order, with all readers pulling from one shared stream of unread output, each reader's caller has received a prefix of the child's output, as long as its cursor. |
| TeeProperties.ReplayDoesNotPull | android/ScriptingLayer/src/com/googlecode/android_scripting/interpreter/InterpreterProcess.java:133-137 | A corrected `read()` or bulk read that the log can satisfy leaves both the log and the child output unchanged. |
| TeeProperties.AllLines | android/ScriptingLayer/src/com/googlecode/android_scripting/interpreter/InterpreterProcess.java:266 | Every line `super.readLine()` yields until end of stream holds no terminator, and there are none exactly when the output is empty. |
| TeeProperties.ReadAllLines | android/ScriptingLayer/src/com/googlecode/android_scripting/interpreter/InterpreterProcess.java:216-282 | Reading lines until none is available only appends to the log and ends with the child output consumed. |
| TeeProperties.TailLineIsLive | android/ScriptingLayer/src/com/googlecode/android_scripting/interpreter/InterpreterProcess.java:217-218 | At the tail with output left, `readLine()` (as written or corrected) takes the next child line and appends it plus LF. |
| TeeProperties.JoinFirstLine | android/ScriptingLayer/src/com/googlecode/android_scripting/interpreter/InterpreterProcess.java:271-272 | What reading all lines live appends is the first line and its LF, followed by what reading the rest appends. |
| TeeProperties.TailReaderReadsAllLines | android/ScriptingLayer/src/com/googlecode/android_scripting/interpreter/InterpreterProcess.java:244-275 | A reader at the tail reads exactly the child's lines, and the log grows by each followed by one LF. |
| TeeProperties.ScanOverLine | android/ScriptingLayer/src/com/googlecode/android_scripting/interpreter/InterpreterProcess.java:221-237 | Replaying a terminator-free line and its LF, with no CR pending, accumulates both and stops just past the LF with the flag clear. |
| TeeProperties.CorrectedReplayReturnsTheLines | android/ScriptingLayer/src/com/googlecode/android_scripting/interpreter/InterpreterProcess.java:221-237 | With the correction, replaying a log made of lines each followed by LF returns exactly those lines and pulls nothing. |
| TeeProperties.TwoReadersSeeTheSameLines | android/ScriptingLayer/src/com/googlecode/android_scripting/interpreter/InterpreterProcess.java:216-282 | With the correction, and with both readers pulling from one shared stream of unread output, a reader created after another has read every line live gets the same lines, and the log is unchanged. |
| TeeProperties.ReplayedLinesKeepTheirTerminator | android/ScriptingLayer/src/com/googlecode/android_scripting/interpreter/InterpreterProcess.java:230-236 | As written, for the output "a" the first reader gets "a" and the replaying reader gets "a\n". |
| TeeProperties.FirstLineEndsAtCRLF | android/ScriptingLayer/src/com/googlecode/android_scripting/interpreter/InterpreterProcess.java:266 | On "a\r\nb\nc\rd", `super.readLine()` returns "a" and consumes the CR LF. |
| TeeProperties.SecondLineEndsAtLF | android/ScriptingLayer/src/com/googlecode/android_scripting/interpreter/InterpreterProcess.java:266 | On "b\nc\rd" it returns "b" and consumes the LF. |
| TeeProperties.ThirdLineEndsAtCR | android/ScriptingLayer/src/com/googlecode/android_scripting/interpreter/InterpreterProcess.java:266 | On "c\rd" it returns "c" and consumes the lone CR. |
| TeeProperties.MixedTerminatorLines | android/ScriptingLayer/src/com/googlecode/android_scripting/interpreter/InterpreterProcess.java:266 | The lines of "a\r\nb\nc\rd" are "a", "b", "c", "d". |
| TeeProperties.MixedTerminatorsSplitIntoFourLines | android/ScriptingLayer/src/com/googlecode/android_scripting/interpreter/InterpreterProcess.java:244-275 | A single reader pulling "a\r\nb\nc\rd" reads "a", "b", "c", "d", and the log becomes "a\nb\nc\nd\n". |
| TeeProperties.UnterminatedLastLine | android/ScriptingLayer/src/com/googlecode/android_scripting/interpreter/InterpreterProcess.java:244-275 | A single reader pulling "xyz", which has no terminator, reads the one line "xyz". |

## Left out

- Locking and memory visibility are not modelled. This covers `mLock.lockInterruptibly()`, `unlock()` and the `volatile` on `mLogLength`. Each call is one atomic sequential step. The `InterruptedException` handlers are left out too: only `lockInterruptibly()` throws that exception, so the handler runs without the lock, and `mLock.unlock()` in the `finally` blocks (lines 157, 210 and 279) then throws `IllegalMonitorStateException`, which replaces the return value. The check-again branches of `read1`, `read1(cbuf, off, len)` and `readLine1` are kept; they matter only when another thread moved the log.
- Process construction and lifecycle are left out: the binary, arguments and environment, `start`, `kill` and the proxy getters. The `Process` superclass and `AndroidProxy` are not part of this model. Whether `mIn` exists is a constructor parameter.
- The `BufferedReader` superclass is modelled in the class methods and in `TeeProperties` as one shared sequence of unread characters. In the source, each `getIn()` wraps `mIn` in a new `BufferedReader` with an 8192-character buffer (line 111). One reader's read-ahead is then invisible to the others: another reader can pull the characters after it, and the log is out of order. The theorems about many readers (`EveryReaderSeesTheOutput`, `TwoReadersSeeTheSameLines`) hold only under the shared-stream abstraction, which is the correction of the sixth finding. `TeeFixes.BufferedReadOne` models single reads with private buffers for that finding; bulk and line reads through private buffers are not modelled.
- ChildOutput.ReadChunk: a bulk read delivers `min(len, remaining)` characters. A real `Reader` may legally deliver fewer. The length clauses of `TeeSpec.BulkPull`, `TeeSpec.BulkRead` and `TeeFixes.BulkReadFixed` (`|copied| == Min(...)`) depend on this choice; the results about what readers receive (`ReadManyKeepsFaithful` and the theorems built on it) do not.
- ChildOutput.NextLine: it splits with full lookahead at LF, CR, or CR LF. The JDK's own CR flag, which decides across buffer refills whether an LF after a CR is swallowed, is not modelled.
- Interpreter.LoggingBufferedReader.ReadLine: requires that a line is available, meaning the replay meets a terminator or the child output has not ended. At end of stream the source gets null from `super.readLine()` and dereferences the null line. With a CR pending it throws at `str.length()` on line 267. Otherwise it first appends "null" and an LF to the log (lines 271-272) and throws on line 273 before `mLogLength` is updated, which breaks the length invariant. `TeeFixes.LiveLineAtEnd` models that path, and the fourth finding records it.
- Interpreter.LoggingBufferedReader.ReadLine1: requires the same, for the same reason. The special case at lines 267-270, which reads again when `str` is "\n", is omitted, because `NextLineIsNeverLF` shows the test is never true.
- Interpreter.LoggingBufferedReader.ReadInto: requires `0 <= off` and `off + len <= cbuf.length`. The source would throw `IndexOutOfBoundsException` from `getChars` or `super.read` otherwise. `len` is a `nat`. With a negative `len` the source returns 0 at the tail, because `read1` skips its `if (len > 0)` block, and behind the tail `getChars` throws, because the end index is below the start.
- Interpreter.LoggingBufferedReader.ReadInto1: requires the same bounds as `ReadInto`.
- Interpreter.InterpreterProcess.Valid: `mLogLength` is an unbounded integer. A Java `int` would overflow after 2^31 - 1 logged characters.

## Findings

| source | as written | input that shows it | evidently intended | confidence | as-written member | corrected member |
|---|---|---|---|---|---|---|
| android/ScriptingLayer/src/com/googlecode/android_scripting/interpreter/InterpreterProcess.java:149-151 | `read1()` stores `(char) super.read()`, so at end of stream it appends 0xFFFF to the log and returns 65535. `read()` never returns -1. | Child output empty, reader at the tail: `read()` returns 65535 and the log becomes "\uFFFF". Every later reader replays a character the child never wrote. | Return -1 at end of stream, append nothing and leave the cursor alone, as `Reader.read()` specifies. | high; not executed | TeeFixes.ReadAtEndReturnsFFFF | TeeFixes.ReadStepFixed |
| android/ScriptingLayer/src/com/googlecode/android_scripting/interpreter/InterpreterProcess.java:174-178 | After copying replayed characters and advancing `mmPos` past them, `read(cbuf, off, len)` returns `read` (-1) when the pull hits end of stream. | Log "ab", child output ended, reader at 0: `read(cbuf, 0, 5)` copies "ab" and moves the cursor to 2, yet returns -1, so the caller drops "ab". | Return the count copied (2), and -1 only when nothing was delivered. | high; not executed | TeeFixes.BulkReadLosesReplayedChars | TeeFixes.BulkReadFixed |
| android/ScriptingLayer/src/com/googlecode/android_scripting/interpreter/InterpreterProcess.java:230-236 | The replay loop appends the terminator to the buffer before returning it. The live path returns the line without one (line 266) and logs it with "\n". | Child output "a": the first reader's `readLine()` returns "a" and logs "a\n". A second reader's `readLine()` replays and returns "a\n". | Return every line without its terminator, replayed or live, as `BufferedReader.readLine()` does. Then all readers see the same lines of a log built by `readLine()`. | high; not executed | TeeProperties.ReplayedLinesKeepTheirTerminator | TeeFixes.ReadLineStepFixed |
| android/ScriptingLayer/src/com/googlecode/android_scripting/interpreter/InterpreterProcess.java:266-273 | When `super.readLine()` returns null at end of stream, `readLine1()` dereferences it. With no CR pending, `mLog.append(str)` first appends "null" and then an LF, and `str.length()` on line 273 throws before `mLogLength` is updated. | Child output ended, reader at the tail, no CR pending: `readLine()` throws, the log has grown by "null\n", and `mLogLength` is 5 short, so every later append lands past the counter. | Return null, as `BufferedReader.readLine()` does at end of stream, with nothing appended. | high; not executed | TeeFixes.LineAtEndBreaksLogLength | TeeFixes.ReadLineOrEnd |
| android/ScriptingLayer/src/com/googlecode/android_scripting/interpreter/InterpreterProcess.java:266-270 | At the tail with the CR flag set, the live path hands the child output straight to `super.readLine()`. An LF that completes a replayed CR is then read as an empty line. The test on lines 267-270 looks for "\n", which `super.readLine()` never returns. | Log "a\r" replayed up to its CR by a reader, child output "\nb": `readLine()` returns "" instead of "b". | Drop that one LF before reading the live line, and clear the flag. | medium; not executed | TeeFixes.SplitCRLFGivesEmptyLine | TeeFixes.ReadLineOrEnd |
| android/ScriptingLayer/src/com/googlecode/android_scripting/interpreter/InterpreterProcess.java:107-112 | `getIn()` wraps `mIn` in a new `BufferedReader` per reader. A reader at the tail fills its private buffer with up to 8192 characters but logs only one. Another reader then pulls the characters after that buffer. | Output of 8193 characters, two readers: A reads one, B reads two, then A reads two. The log holds characters 0, 8192, 1 (`PrivateBuffersReorderTheLog` with `fill` 8192). | All readers pull through one shared stream, so that the log is the child output in order. | high; not executed | TeeFixes.PrivateBuffersReorderTheLog | TeeProperties.Apply |
