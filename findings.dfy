/**
 * Six places where `LoggingBufferedReader` departs from the `Reader` contract
 * it overrides. For each: the code as written (in module TeeSpec or here), an input on
 * which it goes wrong, and the corrected step, which the multi-reader theorems
 * in module TeeProperties are stated over.
 */
module TeeFixes {
  import opened JavaChars
  import opened ChildOutput
  import opened TeeSpec

  // ------------------------------------------------ read() at end of stream

  /**
   * As written, `read()` at the end of the child output casts -1 to `char`: it
   * returns 0xFFFF instead of -1 and appends 0xFFFF to the shared log, so no
   * reader ever sees the end of stream and every later replay delivers a
   * character the child never wrote.
   */
  lemma ReadAtEndReturnsFFFF(log: seq<char16>)
    ensures var r := ReadStep(log, [], |log|);
      r.c == 0xFFFF && r.c != -1 && r.log == log + [0xFFFF] && r.pos == |log| + 1
  {
    EndOfStreamCast();
  }

  /** `read()` as intended: -1 at the end of the child output, with nothing logged and the cursor left where it was. */
  function ReadStepFixed(log: seq<char16>, input: seq<char16>, pos: nat): (r: CharStep)
    requires pos <= |log|
    ensures r.c == -1 <==> pos == |log| && input == []
    ensures r.c == -1 ==> r.log == log && r.input == input && r.pos == pos
    ensures r.c != -1 ==> r.pos == pos + 1 <= |r.log| && r.c == r.log[pos] as int
    ensures log <= r.log && r.log + r.input == log + input
  {
    if pos == |log| && input == [] then CharStep(-1, log, input, pos)
    else
      var r := ReadStep(log, input, pos);
      assert r.log + r.input == log + input by {
        if pos == |log| {
          assert r.log + r.input == log + ([input[0]] + r.input);
        }
      }
      r
  }

  // ------------------------------------------- read(cbuf, off, len) at end

  /**
   * As written, a bulk read that replays the whole remaining log and then finds
   * the child output at its end returns -1: the replayed characters were copied
   * and the cursor moved past them, but the caller is told nothing was read.
   */
  lemma BulkReadLosesReplayedChars()
    ensures var r := BulkRead([97, 98], [], 0, 5);
      r.count == -1 && r.copied == [97, 98] && r.pos == 2
  {
    var r := BulkRead([97, 98], [], 0, 5);
    assert |r.copied| == 2;
  }

  /**
   * `read(cbuf, off, len)` as intended: when replayed characters were copied,
   * their number is returned even if the child output has ended; -1 only when
   * nothing at all could be delivered.
   */
  function BulkReadFixed(log: seq<char16>, input: seq<char16>, pos: nat, len: nat): (r: BulkStep)
    requires pos <= |log|
    ensures r.count == -1 <==> len > 0 && pos == |log| && input == []
    ensures r.count == -1 ==> r.copied == [] && r.log == log && r.input == input && r.pos == pos
    ensures r.count != -1 ==> r.count == |r.copied| == r.pos - pos
    ensures log <= r.log && pos <= r.pos <= |r.log| && r.copied == r.log[pos..r.pos]
    ensures r.log + r.input == log + input
    ensures |r.copied| == Min(len, |log| - pos + |input|)
  {
    var w := BulkRead(log, input, pos, len);
    assert w.log + w.input == log + input by {
      assert w.log == log + w.log[|log|..];
    }
    if w.count == -1 && w.copied != [] then w.(count := |w.copied|) else w
  }

  // -------------------------------------------------------- readLine()

  /**
   * As written, a line replayed from the log keeps its terminator while the same
   * line read live has it stripped: the reader that pulled "a" gets "a", and a
   * reader replaying the log it left ("a\n") gets "a\n".
   */
  lemma ReplayedLineKeepsTerminator()
    ensures var live := ReadLineStep([], [97], 0, false);
      && live.line == [97] && live.log == [97, LF] && live.input == []
      && ReadLineStep(live.log, [], 0, false).line == [97, LF]
  {
    assert NextLine([97]) == ([97], []);
    assert ScanLine([], 0, false, []) == Scan([], 0, false, false);
    var log: seq<char16> := [97, LF];
    assert ScanLine(log, 1, false, [97]) == Scan([97, LF], 2, false, true);
    assert ScanLine(log, 0, false, []) == Scan([97, LF], 2, false, true);
  }

  /**
   * `readLine()` as intended: the same step, but a line that ends at a replayed
   * terminator is returned without it, as it is when read live.
   */
  function ReadLineStepFixed(log: seq<char16>, input: seq<char16>, pos: nat, skipLF: bool): (r: LineStep)
    requires pos <= |log| && LineAvailable(log, input, pos, skipLF)
    ensures var w := ReadLineStep(log, input, pos, skipLF);
      && r.log == w.log && r.input == w.input && r.pos == w.pos && r.skipLF == w.skipLF
      && r.line <= w.line && |w.line| <= |r.line| + 1
  {
    var w := ReadLineStep(log, input, pos, skipLF);
    if ScanLine(log, pos, skipLF, []).found then w.(line := w.line[..|w.line| - 1]) else w
  }

  /**
   * The corrected line never holds a terminator, as `BufferedReader.readLine`
   * promises, and is the log text from the line start up to the terminator,
   * whether it was replayed or read live.
   */
  lemma FixedLineIsLogText(log: seq<char16>, input: seq<char16>, pos: nat, skipLF: bool)
    requires pos <= |log| && LineAvailable(log, input, pos, skipLF)
    ensures var r := ReadLineStepFixed(log, input, pos, skipLF);
      && HasNoTerminator(r.line)
      && LineStart(log, pos, skipLF) < r.pos
      && r.line == r.log[LineStart(log, pos, skipLF)..r.pos - 1]
  {
    var sc := ScanLine(log, pos, skipLF, []);
    var r := ReadLineStepFixed(log, input, pos, skipLF);
    ScanStopsAtFirstTerminator(log, pos, skipLF, []);
    if sc.found {
      ReplayedLineIsLogText(log, input, pos, skipLF);
      assert r.line == log[LineStart(log, pos, skipLF)..r.pos][..r.pos - 1 - LineStart(log, pos, skipLF)];
    } else {
      LiveLineIsLogText(log, input, pos, skipLF);
      ScanToTailKeepsRest(log, pos, skipLF);
      assert r.line == sc.line + NextLine(input).0;
    }
  }

  // ------------------------------------------ readLine() at end of stream

  /** The text "null" that `StringBuilder.append` writes for a null string. */
  const NullText: seq<char16> := [110, 117, 108, 108]

  /** What a live `readLine1()` leaves behind when it throws. */
  datatype ThrownLine = ThrownLine(log: seq<char16>, logLength: int)

  /**
   * As written, a live `readLine1()` whose `super.readLine()` returns null (the
   * child output has ended) dereferences that null and throws: at the
   * `str.length()` test when a CR is pending, and otherwise only after "null"
   * and an LF were appended to the log but before `mLogLength` is updated.
   */
  function LiveLineAtEnd(log: seq<char16>, logLength: int, skipLF: bool): (r: ThrownLine)
    ensures r.logLength == logLength
    ensures skipLF ==> r.log == log
    ensures !skipLF ==> r.log == log + NullText + [LF]
  {
    if skipLF then ThrownLine(log, logLength)
    else ThrownLine(log + NullText + [LF], logLength)
  }

  /**
   * With no CR pending, the failed `readLine()` breaks the invariant that
   * `mLogLength` is the length of the log: the log is five characters longer
   * than the counter, and every later append lands beyond it.
   */
  lemma LineAtEndBreaksLogLength(log: seq<char16>)
    ensures var r := LiveLineAtEnd(log, |log|, false);
      |r.log| == r.logLength + 5 && r.log[..r.logLength] == log
  {
  }

  // ----------------------------------- readLine() over a split CR LF pair

  /**
   * As written, when the replayed log ends in a CR and the child output starts
   * with the LF of the same pair, the live `super.readLine()` returns the empty
   * line in front of that LF: the reader gets an extra empty line, with or
   * without the terminator correction.
   */
  lemma SplitCRLFGivesEmptyLine()
    ensures ReadLineStep([97, CR], [LF, 98], 2, true).line == []
    ensures ReadLineStepFixed([97, CR], [LF, 98], 2, true).line == []
  {
    assert ScanLine([97, CR], 2, true, []) == Scan([], 2, true, false);
    assert NextLine([LF, 98]) == ([], [98]);
  }

  /** The result of a corrected `readLine()`: a line, or end of stream (null). */
  datatype LineOrEnd = LineOrEnd(line: seq<char16>, atEnd: bool, log: seq<char16>, input: seq<char16>, pos: nat, skipLF: bool)

  /** The child output a live line is read from: without the LF of a CR LF pair whose CR was replayed. */
  function AfterPendingLF(input: seq<char16>, skipLF: bool): (r: seq<char16>)
    ensures r == input || (skipLF && input == [LF] + r)
    ensures skipLF && input != [] && input[0] == LF <==> r != input
  {
    if skipLF && input != [] && input[0] == LF then input[1..] else input
  }

  /**
   * `readLine()` as intended: a replayed line without its terminator; a live
   * line read after dropping the LF that completes a replayed CR; and, once the
   * log is replayed and the child output has ended, end of stream with nothing
   * appended to the log.
   */
  function ReadLineOrEnd(log: seq<char16>, input: seq<char16>, pos: nat, skipLF: bool): (r: LineOrEnd)
    requires pos <= |log|
    ensures log <= r.log && pos <= r.pos <= |r.log|
    ensures var sc := ScanLine(log, pos, skipLF, []); var rest := AfterPendingLF(input, sc.skipLF);
      && (r.atEnd <==> !sc.found && rest == [])
      && (r.atEnd ==> r.line == [] && r.log == log && r.input == [] && r.pos == |log| && !r.skipLF)
      && (!sc.found && rest != [] ==>
            var w := ReadLineStep(log, rest, pos, skipLF);
            r.line == w.line && r.log == w.log && r.input == w.input && r.pos == w.pos && !r.skipLF)
    ensures ScanLine(log, pos, skipLF, []).found ==>
      var f := ReadLineStepFixed(log, input, pos, skipLF);
      r.line == f.line && r.log == log && r.input == input && r.pos == f.pos && r.skipLF == f.skipLF
  {
    var sc := ScanLine(log, pos, skipLF, []);
    if sc.found then
      var s := ReadLineStepFixed(log, input, pos, skipLF);
      LineOrEnd(s.line, false, s.log, s.input, s.pos, s.skipLF)
    else
      var rest := AfterPendingLF(input, sc.skipLF);
      if rest == [] then LineOrEnd([], true, log, [], sc.pos, false)
      else
        var s := LiveLine(log, rest, sc.line, false);
        LineOrEnd(s.line, false, s.log, s.input, s.pos, false)
  }

  /**
   * Whenever the corrected `readLine()` returns a line, the line holds no
   * terminator and is the log text from the line start up to the terminator.
   */
  lemma CorrectedLineIsLogText(log: seq<char16>, input: seq<char16>, pos: nat, skipLF: bool)
    requires pos <= |log|
    ensures var r := ReadLineOrEnd(log, input, pos, skipLF);
      !r.atEnd ==>
        && HasNoTerminator(r.line)
        && LineStart(log, pos, skipLF) < r.pos
        && r.line == r.log[LineStart(log, pos, skipLF)..r.pos - 1]
  {
    var sc := ScanLine(log, pos, skipLF, []);
    var rest := AfterPendingLF(input, sc.skipLF);
    if sc.found {
      FixedLineIsLogText(log, input, pos, skipLF);
    } else if rest != [] {
      FixedLineIsLogText(log, rest, pos, skipLF);
    }
  }

  /**
   * With the correction, a CR LF pair split between the log and the child
   * output reads as one terminator: the reader gets the same result as if the
   * LF had never been written.
   */
  lemma SplitCRLFReadsAsOne(log: seq<char16>, rest: seq<char16>)
    ensures ReadLineOrEnd(log, [LF] + rest, |log|, true) == ReadLineOrEnd(log, rest, |log|, false)
  {
    assert ScanLine(log, |log|, true, []) == Scan([], |log|, true, false);
    assert ScanLine(log, |log|, false, []) == Scan([], |log|, false, false);
    assert ([LF] + rest)[1..] == rest;
  }

  // ------------------------------------- one BufferedReader per getIn()

  /**
   * The tee with each reader's own `BufferedReader` between it and the child
   * output, as `getIn()` builds them: a reader at the tail takes its next
   * character from its private buffer, which is refilled with up to `fill`
   * characters of the child output when empty.
   */
  datatype BufferedTee = BufferedTee(log: seq<char16>, input: seq<char16>, cursors: seq<nat>, buffers: seq<seq<char16>>)

  predicate BufferedWellFormed(t: BufferedTee)
  {
    |t.cursors| == |t.buffers| && forall i :: 0 <= i < |t.cursors| ==> t.cursors[i] <= |t.log|
  }

  /** `read()` by reader `i` over its private buffer: replay, or take the first buffered character (0xFFFF at end of stream). */
  function BufferedReadOne(t: BufferedTee, i: nat, fill: nat): (r: BufferedTee)
    requires BufferedWellFormed(t) && i < |t.cursors|
    ensures BufferedWellFormed(r) && t.log <= r.log && |r.log| <= |t.log| + 1
    ensures |r.cursors| == |t.cursors| && r.cursors[i] == t.cursors[i] + 1
    ensures forall j :: 0 <= j < |t.cursors| && j != i ==> r.cursors[j] == t.cursors[j] && r.buffers[j] == t.buffers[j]
    ensures t.input == r.input || (t.buffers[i] == [] && t.input == r.log[|t.log|..] + r.buffers[i] + r.input)
  {
    var p := t.cursors[i];
    if p < |t.log| then t.(cursors := t.cursors[i := p + 1])
    else
      var n := if t.buffers[i] == [] then Min(fill, |t.input|) else 0;
      var buf := if t.buffers[i] == [] then t.input[..n] else t.buffers[i];
      if buf == [] then
        BufferedTee(t.log + [0xFFFF], t.input, t.cursors[i := p + 1], t.buffers)
      else
        assert t.buffers[i] == [] ==> t.input == [buf[0]] + buf[1..] + t.input[n..];
        BufferedTee(t.log + [buf[0]], t.input[n..], t.cursors[i := p + 1], t.buffers[i := buf[1..]])
  }

  /** Reader A pulls and buffers, reader B replays and then pulls from what A left in the child output. */
  lemma SecondReaderPullsPastFirstBuffer(output: seq<char16>, fill: nat)
    requires 2 <= fill < |output|
    ensures var t3 := BufferedReadOne(BufferedReadOne(BufferedReadOne(BufferedTee([], output, [0, 0], [[], []]), 0, fill), 1, fill), 1, fill);
      t3.log == [output[0], output[fill]] && t3.cursors == [1, 2] && |t3.buffers| == 2 && t3.buffers[0] == output[1..fill]
  {
    var t1 := BufferedReadOne(BufferedTee([], output, [0, 0], [[], []]), 0, fill);
    assert output[..fill][0] == output[0] && output[..fill][1..] == output[1..fill];
    assert t1 == BufferedTee([output[0]], output[fill..], [1, 0], [output[1..fill], []]);
    var t2 := BufferedReadOne(t1, 1, fill);
    assert t2 == t1.(cursors := [1, 1]);
    assert t2.input[..Min(fill, |t2.input|)][0] == output[fill];
  }

  /**
   * With private buffers the log is not the child output: reader A fills its
   * buffer with the first `fill` characters and logs only the first; reader B
   * replays it, then refills its own buffer from what follows A's and logs
   * character `fill`; A replays that and then logs its buffered second
   * character. For the 8192-character buffers of `getIn()` this happens as
   * soon as the child writes more than 8192 characters.
   */
  lemma PrivateBuffersReorderTheLog(output: seq<char16>, fill: nat)
    requires 2 <= fill < |output| && output[fill] != output[1]
    ensures var t3 := BufferedReadOne(BufferedReadOne(BufferedReadOne(BufferedTee([], output, [0, 0], [[], []]), 0, fill), 1, fill), 1, fill);
      var t5 := BufferedReadOne(BufferedReadOne(t3, 0, fill), 0, fill);
      t5.log == [output[0], output[fill], output[1]] && !(t5.log <= output)
  {
    SecondReaderPullsPastFirstBuffer(output, fill);
    var t3 := BufferedReadOne(BufferedReadOne(BufferedReadOne(BufferedTee([], output, [0, 0], [[], []]), 0, fill), 1, fill), 1, fill);
    var t4 := BufferedReadOne(t3, 0, fill);
    assert t4.log == t3.log && t4.cursors == [2, 2] && t4.buffers[0] == output[1..fill];
    var t5 := BufferedReadOne(t4, 0, fill);
    assert t5.log == [output[0], output[fill], output[1]];
    assert t5.log[2] != output[2] || t5.log[1] != output[1];
  }
}
