/**
 * What the tee promises across calls and readers: every reader handed out by
 * `getIn()` sees the child's output from its first character, in order,
 * whatever the interleaving of the readers' calls, and only the reader at the
 * tail of the log pulls from the child. Stated over the corrected steps of
 * module TeeFixes; the steps as written break these promises on the inputs
 * given there and in `ReplayedLinesKeepTheirTerminator` below.
 */
module TeeProperties {
  import opened JavaChars
  import opened ChildOutput
  import opened TeeSpec
  import opened TeeFixes

  // ------------------------------------------- characters, many readers

  /**
   * The shared state and every reader's view of it: the log, what the child
   * output has yet to deliver, each reader's cursor, and the characters each
   * reader's caller has received so far.
   */
  datatype Tee = Tee(log: seq<char16>, input: seq<char16>, cursors: seq<nat>, seen: seq<seq<char16>>)

  /** A call: `getIn()`, or `read()` / `read(cbuf, off, len)` on the reader with that index. */
  datatype Op = Open | ReadOne(reader: nat) | ReadMany(reader: nat, len: nat)

  predicate WellFormed(t: Tee) {
    |t.cursors| == |t.seen| && forall i :: 0 <= i < |t.cursors| ==> t.cursors[i] <= |t.log|
  }

  predicate Accepts(t: Tee, op: Op) {
    op.Open? || op.reader < |t.cursors|
  }

  /** One call; the caller of a bulk read receives the first `count` characters it was given. */
  function Apply(t: Tee, op: Op): (r: Tee)
    requires WellFormed(t) && Accepts(t, op)
    ensures WellFormed(r) && t.log <= r.log && r.log + r.input == t.log + t.input
    ensures |r.cursors| == |t.cursors| + (if op.Open? then 1 else 0)
  {
    match op
    case Open => Tee(t.log, t.input, t.cursors + [0], t.seen + [[]])
    case ReadOne(i) =>
      var s := ReadStepFixed(t.log, t.input, t.cursors[i]);
      var got := if s.c == -1 then [] else [s.c as char16];
      Tee(s.log, s.input, t.cursors[i := s.pos], t.seen[i := t.seen[i] + got])
    case ReadMany(i, len) =>
      var b := BulkReadFixed(t.log, t.input, t.cursors[i], len);
      var got := if b.count < 0 then [] else b.copied[..b.count];
      Tee(b.log, b.input, t.cursors[i := b.pos], t.seen[i := t.seen[i] + got])
  }

  predicate AcceptsAll(t: Tee, ops: seq<Op>)
    requires WellFormed(t)
    decreases |ops|
  {
    ops == [] || (Accepts(t, ops[0]) && AcceptsAll(Apply(t, ops[0]), ops[1..]))
  }

  function Run(t: Tee, ops: seq<Op>): (r: Tee)
    requires WellFormed(t) && AcceptsAll(t, ops)
    decreases |ops|
    ensures WellFormed(r) && t.log <= r.log && r.log + r.input == t.log + t.input
  {
    if ops == [] then t else Run(Apply(t, ops[0]), ops[1..])
  }

  /** The tee's invariant: what each reader's caller has received is the log up to its cursor. */
  predicate Faithful(t: Tee)
    requires WellFormed(t)
  {
    forall i :: 0 <= i < |t.seen| ==> t.seen[i] == t.log[..t.cursors[i]]
  }

  /** A call that only extends the log and one reader's view keeps every other reader's view faithful. */
  lemma OthersStayFaithful(t: Tee, r: Tee, i: nat)
    requires WellFormed(t) && WellFormed(r) && Faithful(t) && t.log <= r.log
    requires |r.seen| == |t.seen| && i < |t.seen| && r.seen[i] == r.log[..r.cursors[i]]
    requires forall j :: 0 <= j < |t.seen| && j != i ==> r.cursors[j] == t.cursors[j] && r.seen[j] == t.seen[j]
    ensures Faithful(r)
  {
    forall j | 0 <= j < |r.seen| && j != i
      ensures r.seen[j] == r.log[..r.cursors[j]]
    {
      assert t.seen[j] == t.log[..t.cursors[j]];
    }
  }

  lemma ReadOneKeepsFaithful(t: Tee, i: nat)
    requires WellFormed(t) && i < |t.cursors| && Faithful(t)
    ensures Faithful(Apply(t, ReadOne(i)))
  {
    var r := Apply(t, ReadOne(i));
    var p := t.cursors[i];
    var s := ReadStepFixed(t.log, t.input, p);
    assert t.seen[i] == t.log[..p] == r.log[..p];
    if s.c != -1 {
      assert r.log[..p + 1] == r.log[..p] + [s.c as char16];
    }
    OthersStayFaithful(t, r, i);
  }

  lemma ReadManyKeepsFaithful(t: Tee, i: nat, len: nat)
    requires WellFormed(t) && i < |t.cursors| && Faithful(t)
    ensures Faithful(Apply(t, ReadMany(i, len)))
  {
    var r := Apply(t, ReadMany(i, len));
    var p := t.cursors[i];
    var b := BulkReadFixed(t.log, t.input, p, len);
    assert t.seen[i] == t.log[..p] == r.log[..p];
    if b.count >= 0 {
      assert b.copied[..b.count] == b.copied;
      assert r.log[..b.pos] == r.log[..p] + r.log[p..b.pos];
    }
    OthersStayFaithful(t, r, i);
  }

  lemma ApplyKeepsFaithful(t: Tee, op: Op)
    requires WellFormed(t) && Accepts(t, op) && Faithful(t)
    ensures Faithful(Apply(t, op))
  {
    match op
    case Open =>
      var r := Apply(t, op);
      forall j | 0 <= j < |r.seen|
        ensures r.seen[j] == r.log[..r.cursors[j]]
      {
        if j < |t.seen| {
          assert t.seen[j] == t.log[..t.cursors[j]];
        }
      }
    case ReadOne(i) => ReadOneKeepsFaithful(t, i);
    case ReadMany(i, len) => ReadManyKeepsFaithful(t, i, len);
  }

  lemma {:induction false} RunKeepsFaithful(t: Tee, ops: seq<Op>)
    requires WellFormed(t) && AcceptsAll(t, ops) && Faithful(t)
    decreases |ops|
    ensures Faithful(Run(t, ops))
  {
    if ops != [] {
      ApplyKeepsFaithful(t, ops[0]);
      RunKeepsFaithful(Apply(t, ops[0]), ops[1..]);
    }
  }

  /** A process whose child has written `output`, before any reader exists. */
  function Started(output: seq<char16>): (t: Tee)
    ensures WellFormed(t) && Faithful(t)
  {
    Tee([], output, [], [])
  }

  /**
   * Whatever calls the readers make, in whatever order, every reader's caller has
   * received a prefix of the child's output: the log never holds anything the
   * child did not write, and each reader replays it from the first character.
   */
  lemma EveryReaderSeesTheOutput(output: seq<char16>, ops: seq<Op>)
    requires AcceptsAll(Started(output), ops)
    ensures var t := Run(Started(output), ops);
      forall i :: 0 <= i < |t.seen| ==> t.seen[i] <= output && |t.seen[i]| == t.cursors[i]
  {
    RunKeepsFaithful(Started(output), ops);
    var t := Run(Started(output), ops);
    assert t.log + t.input == output;
    forall i | 0 <= i < |t.seen|
      ensures t.seen[i] <= output && |t.seen[i]| == t.cursors[i]
    {
      assert t.seen[i] == t.log[..t.cursors[i]];
      assert output[..t.cursors[i]] == t.log[..t.cursors[i]];
    }
  }

  /** A reader behind the tail replays: the log and the child output are left as they were. */
  lemma ReplayDoesNotPull(t: Tee, op: Op)
    requires WellFormed(t) && !op.Open? && op.reader < |t.cursors|
    requires t.cursors[op.reader] + (if op.ReadMany? then op.len else 1) <= |t.log|
    ensures Apply(t, op).log == t.log && Apply(t, op).input == t.input
  {
  }

  // ----------------------------------------------------------- lines

  /** The lines a reader gets from `output` by calling `readLine()` until the stream ends. */
  function AllLines(output: seq<char16>): (lines: seq<seq<char16>>)
    decreases |output|
    ensures forall k :: 0 <= k < |lines| ==> HasNoTerminator(lines[k])
    ensures output == [] <==> lines == []
  {
    if output == [] then []
    else
      var (line, rest) := NextLine(output);
      [line] + AllLines(rest)
  }

  /** What reading `lines` live appends to the log: each line followed by one LF. */
  function JoinLines(lines: seq<seq<char16>>): seq<char16> {
    if lines == [] then [] else lines[0] + [LF] + JoinLines(lines[1..])
  }

  /** The outcome of calling `readLine()` until no line is available. */
  datatype Drain = Drain(lines: seq<seq<char16>>, log: seq<char16>, input: seq<char16>)

  /** `readLine()` called until no line is available, as written or as corrected. */
  function ReadAllLines(log: seq<char16>, input: seq<char16>, pos: nat, skipLF: bool, corrected: bool): (r: Drain)
    requires pos <= |log|
    decreases |input|, |log| - pos
    ensures log <= r.log && r.input == []
  {
    if !LineAvailable(log, input, pos, skipLF) then Drain([], log, input)
    else
      var s := if corrected then ReadLineStepFixed(log, input, pos, skipLF) else ReadLineStep(log, input, pos, skipLF);
      var d := ReadAllLines(s.log, s.input, s.pos, s.skipLF, corrected);
      Drain([s.line] + d.lines, d.log, d.input)
  }

  /** At the tail of the log there is nothing to replay: `readLine()` takes the next line of the child output. */
  lemma TailLineIsLive(log: seq<char16>, input: seq<char16>, corrected: bool)
    requires input != []
    ensures LineAvailable(log, input, |log|, false)
    ensures var s := if corrected then ReadLineStepFixed(log, input, |log|, false) else ReadLineStep(log, input, |log|, false);
      var next := log + NextLine(input).0 + [LF];
      s == LineStep(NextLine(input).0, next, NextLine(input).1, |next|, false)
  {
    assert ScanLine(log, |log|, false, []) == Scan([], |log|, false, false);
  }

  /** Joining all the lines of a non-empty output gives its first line, an LF, and the rest joined. */
  lemma JoinFirstLine(input: seq<char16>)
    requires input != []
    ensures JoinLines(AllLines(input)) == NextLine(input).0 + [LF] + JoinLines(AllLines(NextLine(input).1))
  {
    var rest := AllLines(NextLine(input).1);
    assert AllLines(input) == [NextLine(input).0] + rest;
    assert ([NextLine(input).0] + rest)[1..] == rest;
  }

  /** Concatenation regroups; kept apart because in the lemma below its context makes it too costly. */
  lemma SeqAssoc(a: seq<char16>, b: seq<char16>, c: seq<char16>)
    ensures a + b + c == a + (b + c)
  {
  }

  /**
   * A reader at the tail of the log reads every line of the child output live,
   * and leaves each in the log followed by one LF.
   */
  lemma {:induction false} TailReaderReadsAllLines(log: seq<char16>, input: seq<char16>, corrected: bool)
    decreases |input|
    ensures ReadAllLines(log, input, |log|, false, corrected) == Drain(AllLines(input), log + JoinLines(AllLines(input)), [])
  {
    if input == [] {
      assert ScanLine(log, |log|, false, []) == Scan([], |log|, false, false);
    } else {
      var (line, rest) := NextLine(input);
      var next := log + line + [LF];
      TailLineIsLive(log, input, corrected);
      JoinFirstLine(input);
      TailReaderReadsAllLines(next, rest, corrected);
      var d := ReadAllLines(next, rest, |next|, false, corrected);
      assert ReadAllLines(log, input, |log|, false, corrected) == Drain([line] + d.lines, d.log, d.input);
      var tail := JoinLines(AllLines(rest));
      assert next == log + (line + [LF]);
      SeqAssoc(log, line + [LF], tail);
      assert d == Drain(AllLines(rest), log + JoinLines(AllLines(input)), []);
    }
  }

  /** Replaying a terminator-free line and its LF, with no CR pending, accumulates both and stops after the LF. */
  lemma {:induction false} ScanOverLine(log: seq<char16>, start: nat, line: seq<char16>, acc: seq<char16>)
    requires start + |line| < |log| && log[start..start + |line|] == line && log[start + |line|] == LF
    requires HasNoTerminator(line)
    decreases |line|
    ensures ScanLine(log, start, false, acc) == Scan(acc + line + [LF], start + |line| + 1, false, true)
  {
    if line != [] {
      assert log[start] == line[0];
      assert log[start + 1..start + 1 + |line[1..]|] == line[1..];
      ScanOverLine(log, start + 1, line[1..], acc + [line[0]]);
      assert acc + [line[0]] + line[1..] == acc + line;
    }
  }

  /** With the correction, replaying a log of lines read live returns those same lines. */
  lemma {:induction false} CorrectedReplayReturnsTheLines(prefix: seq<char16>, lines: seq<seq<char16>>)
    requires forall k :: 0 <= k < |lines| ==> HasNoTerminator(lines[k])
    decreases |lines|
    ensures ReadAllLines(prefix + JoinLines(lines), [], |prefix|, false, true) == Drain(lines, prefix + JoinLines(lines), [])
  {
    var log := prefix + JoinLines(lines);
    if lines == [] {
      assert log == prefix;
      assert ScanLine(log, |log|, false, []) == Scan([], |log|, false, false);
    } else {
      var line := lines[0];
      var next := prefix + line + [LF];
      assert log == next + JoinLines(lines[1..]);
      assert log[|prefix|..|prefix| + |line|] == line;
      ScanOverLine(log, |prefix|, line, []);
      assert ([] + line + [LF])[..|line|] == line;
      assert ReadLineStepFixed(log, [], |prefix|, false) == LineStep(line, log, [], |next|, false);
      CorrectedReplayReturnsTheLines(next, lines[1..]);
    }
  }

  /**
   * With the correction, a reader that replays what another reader read live gets
   * the same lines, all of them, and pulls nothing from the child output.
   */
  lemma TwoReadersSeeTheSameLines(output: seq<char16>)
    ensures var a := ReadAllLines([], output, 0, false, true);
      var b := ReadAllLines(a.log, a.input, 0, false, true);
      && a.lines == AllLines(output)
      && b == Drain(AllLines(output), a.log, [])
  {
    TailReaderReadsAllLines([], output, true);
    CorrectedReplayReturnsTheLines([], AllLines(output));
    assert [] + JoinLines(AllLines(output)) == JoinLines(AllLines(output));
  }

  /**
   * As written, the replaying reader gets each line with the LF the first reader
   * appended: for the output "a", one reader gets "a" and the next gets "a\n".
   */
  lemma ReplayedLinesKeepTheirTerminator()
    ensures var a := ReadAllLines([], [97], 0, false, false);
      var b := ReadAllLines(a.log, a.input, 0, false, false);
      a.lines == [[97]] && b.lines == [[97, LF]]
  {
    assert NextLine([97]) == ([97], []);
    assert AllLines([97]) == [[97]];
    TailReaderReadsAllLines([], [97], false);
    var log: seq<char16> := [97, LF];
    assert ScanLine(log, 1, false, [97]) == Scan([97, LF], 2, false, true);
    assert ScanLine(log, 0, false, []) == Scan([97, LF], 2, false, true);
    assert ScanLine(log, 2, false, []) == Scan([], 2, false, false);
    assert ReadAllLines(log, [], 2, false, false) == Drain([], log, []);
  }

  // `super.readLine()` on "a\r\nb\nc\rd", call by call.

  lemma FirstLineEndsAtCRLF()
    ensures NextLine([97, CR, LF, 98, LF, 99, CR, 100]) == ([97], [98, LF, 99, CR, 100])
  {
    var output: seq<char16> := [97, CR, LF, 98, LF, 99, CR, 100];
    var rest: seq<char16> := [98, LF, 99, CR, 100];
    assert output[1..] == [CR, LF] + rest && output[1..][2..] == rest;
    NextLineCons(97, output[1..]);
    assert [97 as char16] + output[1..] == output;
    assert [97 as char16] + [] == [97];
  }

  lemma SecondLineEndsAtLF()
    ensures NextLine([98, LF, 99, CR, 100]) == ([98], [99, CR, 100])
  {
    var output: seq<char16> := [98, LF, 99, CR, 100];
    assert output[1..] == [LF, 99, CR, 100] && output[1..][1..] == [99, CR, 100];
    NextLineCons(98, output[1..]);
    assert [98 as char16] + output[1..] == output;
    assert [98 as char16] + [] == [98];
  }

  lemma ThirdLineEndsAtCR()
    ensures NextLine([99, CR, 100]) == ([99], [100])
  {
    var output: seq<char16> := [99, CR, 100];
    assert output[1..] == [CR, 100] && output[1..][1..] == [100];
    NextLineCons(99, output[1..]);
    assert [99 as char16] + output[1..] == output;
    assert [99 as char16] + [] == [99];
  }

  /** The lines of "a\r\nb\nc\rd" are "a", "b", "c" and "d". */
  lemma MixedTerminatorLines()
    ensures AllLines([97, CR, LF, 98, LF, 99, CR, 100]) == [[97], [98], [99], [100]]
  {
    FirstLineEndsAtCRLF();
    SecondLineEndsAtLF();
    ThirdLineEndsAtCR();
    assert NextLine([100]) == ([100], []);
    assert AllLines([100]) == [[100]];
    assert AllLines([99, CR, 100]) == [[99], [100]];
    assert AllLines([98, LF, 99, CR, 100]) == [[98], [99], [100]];
  }

  /**
   * LF, CR LF and a lone CR each end one line: a reader pulling "a\r\nb\nc\rd"
   * reads "a", "b", "c" and "d", and the log holds each followed by LF.
   */
  lemma MixedTerminatorsSplitIntoFourLines()
    ensures var output: seq<char16> := [97, CR, LF, 98, LF, 99, CR, 100];
      var a := ReadAllLines([], output, 0, false, false);
      && a.lines == [[97], [98], [99], [100]]
      && a.log == [97, LF, 98, LF, 99, LF, 100, LF]
  {
    var output: seq<char16> := [97, CR, LF, 98, LF, 99, CR, 100];
    MixedTerminatorLines();
    var lines: seq<seq<char16>> := [[97], [98], [99], [100]];
    assert JoinLines(lines[3..]) == [100, LF];
    assert JoinLines(lines[2..]) == [99, LF, 100, LF];
    assert JoinLines(lines[1..]) == [98, LF, 99, LF, 100, LF];
    assert JoinLines(lines) == [97, LF, 98, LF, 99, LF, 100, LF];
    TailReaderReadsAllLines([], output, false);
  }

  /** A last line without a terminator is still one line: "xyz" reads as "xyz". */
  lemma UnterminatedLastLine()
    ensures ReadAllLines([], [120, 121, 122], 0, false, false).lines == [[120, 121, 122]]
  {
    var output: seq<char16> := [120, 121, 122];
    assert output[1..] == [121, 122] && output[1..][1..] == [122];
    assert NextLine([122]) == ([122], []);
    NextLineCons(121, [122]);
    NextLineCons(120, [121, 122]);
    assert [121 as char16] + [122] == [121, 122];
    assert [120 as char16] + [121, 122] == output;
    assert NextLine(output) == (output, []);
    assert AllLines(output) == [output];
    TailReaderReadsAllLines([], output, false);
  }
}
