/**
 * What one call on a `LoggingBufferedReader` does, as functions of the shared
 * log, the child output not yet read, and the reader's cursor and CR flag.
 * The reader methods in module Interpreter are proved to follow these.
 */
module TeeSpec {
  import opened JavaChars
  import opened ChildOutput

  // ---------------------------------------------------------------- read()

  /** Outcome of `read()`: the value returned and the new log, input and cursor. */
  datatype CharStep = CharStep(c: int, log: seq<char16>, input: seq<char16>, pos: nat)

  /**
   * `read()`: replay `log[pos]` when the cursor is behind the tail; otherwise pull one
   * character, cast it to `char` (so end of stream becomes 0xFFFF) and append it.
   */
  function ReadStep(log: seq<char16>, input: seq<char16>, pos: nat): (r: CharStep)
    requires pos <= |log|
    ensures log <= r.log && |r.log| <= |log| + 1
    ensures r.pos == pos + 1 <= |r.log|
    ensures r.c == r.log[pos] as int && 0 <= r.c < 0x1_0000
    ensures pos < |log| ==> r.log == log && r.input == input
    ensures pos == |log| && input != [] ==> r.log == log + [input[0]] && input == [input[0]] + r.input
    ensures pos == |log| && input == [] ==> r.log == log + [0xFFFF] && r.input == []
  {
    if pos < |log| then CharStep(log[pos] as int, log, input, pos + 1)
    else
      var rc := ReadChar(input);
      var ch := NarrowToChar16(rc.value);
      CharStep(ch as int, log + [ch], rc.rest, pos + 1)
  }

  // ------------------------------------------------- read(cbuf, off, len)

  /** Outcome of a bulk read: the value returned, the characters written to `cbuf`, and the new state. */
  datatype BulkStep = BulkStep(count: int, copied: seq<char16>, log: seq<char16>, input: seq<char16>, pos: nat)

  /**
   * The pulling half of `read1(cbuf, off, len)`, for a reader at the tail: a
   * physical read of up to `len` characters, appended to the log as delivered.
   */
  function BulkPull(log: seq<char16>, input: seq<char16>, len: nat): (r: BulkStep)
    ensures log <= r.log && r.pos == |r.log| && r.copied == r.log[|log|..]
    ensures input == r.copied + r.input
    ensures |r.copied| == Min(len, |input|)
    ensures r.count == -1 <==> len > 0 && input == []
    ensures r.count != -1 ==> r.count == |r.copied|
  {
    if len == 0 then BulkStep(0, [], log, input, |log|)
    else
      var cr := ReadChunk(input, len);
      if cr.count < 0 then BulkStep(-1, [], log, input, |log|)
      else BulkStep(cr.count, cr.chars, log + cr.chars, cr.rest, |log| + cr.count)
  }

  /**
   * `read(cbuf, off, len)`: copy what the log holds from the cursor, up to `len`;
   * if that falls short, pull the rest from the child output and append it.
   * End of stream on the pull returns -1 even when replayed characters were copied.
   */
  function BulkRead(log: seq<char16>, input: seq<char16>, pos: nat, len: nat): (r: BulkStep)
    requires pos <= |log|
    ensures log <= r.log && pos <= r.pos <= |r.log|
    ensures r.copied == r.log[pos..r.pos]
    ensures |r.copied| == Min(len, |log| - pos + |input|)
    ensures input == r.log[|log|..] + r.input
    ensures r.log != log ==> r.pos == |r.log|
    ensures r.count == -1 <==> pos + len > |log| && input == []
    ensures r.count != -1 ==> r.count == |r.copied|
  {
    var replayed := log[pos..Min(|log|, pos + len)];
    var t := BulkPull(log, input, len - |replayed|);
    BulkStep(if t.count < 0 then -1 else |replayed| + t.count, replayed + t.copied, t.log, t.input, pos + |replayed| + |t.copied|)
  }

  /** At the tail there is nothing to replay: a bulk read is a pull. */
  lemma BulkReadAtTail(log: seq<char16>, input: seq<char16>, len: nat)
    ensures BulkRead(log, input, |log|, len) == BulkPull(log, input, len)
  {
    assert log[|log|..Min(|log|, |log| + len)] == [];
  }

  // ----------------------------------------------------------- readLine()

  /** Where the replay loop of `readLine()` stops, what it accumulated, and whether it met a terminator. */
  datatype Scan = Scan(line: seq<char16>, pos: nat, skipLF: bool, found: bool)

  /** The first log position whose character the replay loop keeps: a pending CR swallows one LF. */
  function LineStart(log: seq<char16>, pos: nat, skipLF: bool): (s: nat)
    requires pos <= |log|
    ensures pos <= s <= |log|
  {
    if skipLF && pos < |log| && log[pos] == LF then pos + 1 else pos
  }

  /**
   * The replay loop of `readLine()` and `readLine1()`, accumulating into `acc`:
   * it consumes log characters up to and including the first LF or CR and keeps
   * the terminator; a CR sets the flag, and the flag swallows one following LF.
   */
  function ScanLine(log: seq<char16>, pos: nat, skipLF: bool, acc: seq<char16>): (r: Scan)
    requires pos <= |log|
    decreases |log| - pos
    ensures LineStart(log, pos, skipLF) <= r.pos <= |log|
    ensures !r.found ==> r.pos == |log|
    ensures r.found ==> LineStart(log, pos, skipLF) < r.pos && |acc| < |r.line|
  {
    if pos == |log| then Scan(acc, pos, skipLF, false)
    else
      var c := log[pos];
      if skipLF && c == LF then ScanLine(log, pos + 1, false, acc)
      else if c == LF then Scan(acc + [c], pos + 1, false, true)
      else if c == CR then Scan(acc + [c], pos + 1, true, true)
      else ScanLine(log, pos + 1, false, acc + [c])
  }

  /**
   * What the replay loop accumulates is the log text it moved over, less a
   * swallowed LF; when it stops early, it stopped just after a terminator.
   */
  lemma {:induction false} ScanKeepsLogText(log: seq<char16>, pos: nat, skipLF: bool, acc: seq<char16>)
    requires pos <= |log|
    decreases |log| - pos
    ensures var r := ScanLine(log, pos, skipLF, acc);
      && r.line == acc + log[LineStart(log, pos, skipLF)..r.pos]
      && (r.found ==> LineStart(log, pos, skipLF) < r.pos && IsTerminator(log[r.pos - 1]))
  {
    if pos < |log| {
      var c := log[pos];
      if skipLF && c == LF {
        ScanKeepsLogText(log, pos + 1, false, acc);
      } else if !IsTerminator(c) {
        ScanKeepsLogText(log, pos + 1, false, acc + [c]);
        var r := ScanLine(log, pos + 1, false, acc + [c]);
        assert log[pos..r.pos] == [c] + log[pos + 1..r.pos];
      }
    }
  }

  /**
   * The replay loop stops at the FIRST terminator after the swallowed LF, and
   * leaves the CR flag set exactly when that terminator is a CR.
   */
  lemma {:induction false} ScanStopsAtFirstTerminator(log: seq<char16>, pos: nat, skipLF: bool, acc: seq<char16>)
    requires pos <= |log|
    decreases |log| - pos
    ensures var r := ScanLine(log, pos, skipLF, acc);
      && (forall i :: LineStart(log, pos, skipLF) <= i < r.pos - (if r.found then 1 else 0) ==> !IsTerminator(log[i]))
      && (r.found ==> r.skipLF == (log[r.pos - 1] == CR))
      && (!r.found ==> r.skipLF == (skipLF && pos == |log|))
  {
    if pos < |log| {
      var c := log[pos];
      if skipLF && c == LF {
        ScanStopsAtFirstTerminator(log, pos + 1, false, acc);
      } else if !IsTerminator(c) {
        ScanStopsAtFirstTerminator(log, pos + 1, false, acc + [c]);
      }
    }
  }

  /** Outcome of `readLine()`: the string returned and the new state. */
  datatype LineStep = LineStep(line: seq<char16>, log: seq<char16>, input: seq<char16>, pos: nat, skipLF: bool)

  /**
   * `readLine()` is defined when the replay loop meets a terminator or the child
   * output is not at its end (at its end the source dereferences a null line).
   */
  predicate LineAvailable(log: seq<char16>, input: seq<char16>, pos: nat, skipLF: bool)
    requires pos <= |log|
  {
    ScanLine(log, pos, skipLF, []).found || input != []
  }

  /**
   * The live part of `readLine1()`: one line from the child output, appended to
   * the log with a single LF; the cursor moves past it and `prefix + str` is returned.
   */
  function LiveLine(log: seq<char16>, input: seq<char16>, prefix: seq<char16>, skipLF: bool): (r: LineStep)
    requires input != []
    ensures r.log == log + NextLine(input).0 + [LF] && r.input == NextLine(input).1
    ensures r.line == prefix + NextLine(input).0 && r.pos == |r.log| && r.skipLF == skipLF
  {
    var (str, rest) := NextLine(input);
    LineStep(prefix + str, log + str + [LF], rest, |log| + |str| + 1, skipLF)
  }

  /** `readLine()`: replay up to a terminator; failing that, the replayed prefix followed by a live line. */
  function ReadLineStep(log: seq<char16>, input: seq<char16>, pos: nat, skipLF: bool): (r: LineStep)
    requires pos <= |log| && LineAvailable(log, input, pos, skipLF)
    ensures log <= r.log && pos <= r.pos <= |r.log|
    ensures r.log == log ==> r.input == input && pos < r.pos
    ensures r.log != log ==> input != [] && r.pos == |r.log| && r.log == log + NextLine(input).0 + [LF] && r.input == NextLine(input).1
  {
    var sc := ScanLine(log, pos, skipLF, []);
    if sc.found then LineStep(sc.line, log, input, sc.pos, sc.skipLF)
    else LiveLine(log, input, sc.line, sc.skipLF)
  }

  /**
   * When the replay loop meets a terminator, `readLine()` returns exactly the log
   * text the cursor moved over, less a swallowed LF, and ending in the terminator;
   * neither the log nor the child output changes.
   */
  lemma ReplayedLineIsLogText(log: seq<char16>, input: seq<char16>, pos: nat, skipLF: bool)
    requires pos <= |log| && ScanLine(log, pos, skipLF, []).found
    ensures var r := ReadLineStep(log, input, pos, skipLF);
      && r.log == log && r.input == input
      && LineStart(log, pos, skipLF) < r.pos
      && r.line == log[LineStart(log, pos, skipLF)..r.pos]
      && IsTerminator(log[r.pos - 1])
  {
    var sc := ScanLine(log, pos, skipLF, []);
    ScanKeepsLogText(log, pos, skipLF, []);
    assert ReadLineStep(log, input, pos, skipLF) == LineStep(sc.line, log, input, sc.pos, sc.skipLF);
  }

  /** A replay loop that runs off the end of the log has kept everything from the line start on. */
  lemma ScanToTailKeepsRest(log: seq<char16>, pos: nat, skipLF: bool)
    requires pos <= |log| && !ScanLine(log, pos, skipLF, []).found
    ensures ScanLine(log, pos, skipLF, []).line == log[LineStart(log, pos, skipLF)..]
  {
    ScanKeepsLogText(log, pos, skipLF, []);
  }

  lemma AppendedLineSlice(log: seq<char16>, str: seq<char16>, start: nat)
    requires start <= |log|
    ensures (log + str + [LF])[start..|log| + |str|] == log[start..] + str
  {
  }

  /**
   * When the log runs out first, `readLine()` returns the replayed text followed by
   * the live line: everything the cursor moved over except the LF the reader appended.
   */
  lemma LiveLineIsLogText(log: seq<char16>, input: seq<char16>, pos: nat, skipLF: bool)
    requires pos <= |log| && !ScanLine(log, pos, skipLF, []).found && input != []
    ensures var r := ReadLineStep(log, input, pos, skipLF);
      && r.log != log && r.pos == |r.log|
      && r.line == r.log[LineStart(log, pos, skipLF)..r.pos - 1]
  {
    var r := ReadLineStep(log, input, pos, skipLF);
    assert r.line == ScanLine(log, pos, skipLF, []).line + NextLine(input).0;
    ScanToTailKeepsRest(log, pos, skipLF);
    assert r.log == log + NextLine(input).0 + [LF];
    AppendedLineSlice(log, NextLine(input).0, LineStart(log, pos, skipLF));
  }
}
