/**
 * `InterpreterProcess` and its inner `LoggingBufferedReader`: a tee over the
 * child process's output. All readers share one append-only log and its length
 * counter; each reader has its own cursor into the log and its own CR flag.
 * Calls are modelled as atomic sequential steps, so the lock is left out.
 */
module Interpreter {
  import opened JavaChars
  import opened ChildOutput
  import opened TeeSpec

  /** `s` with the characters from index `off` on overwritten by `src`. */
  function Splice(s: seq<char16>, off: nat, src: seq<char16>): seq<char16>
    requires off + |src| <= |s|
  {
    s[..off] + src + s[off + |src|..]
  }

  /** What was written can be read back, and nothing else moved. */
  lemma SpliceReadsBack(s: seq<char16>, off: nat, src: seq<char16>)
    requires off + |src| <= |s|
    ensures |Splice(s, off, src)| == |s| && Splice(s, off, src)[off..off + |src|] == src
    ensures forall k :: 0 <= k < |s| && !(off <= k < off + |src|) ==> Splice(s, off, src)[k] == s[k]
  {
  }

  /** Two copies side by side are one copy of the two pieces joined. */
  lemma SpliceTwice(s: seq<char16>, off: nat, a: seq<char16>, b: seq<char16>)
    requires off + |a| + |b| <= |s|
    ensures Splice(Splice(s, off, a), off + |a|, b) == Splice(s, off, a + b)
  {
    var mid := Splice(s, off, a);
    assert mid[..off + |a|] == s[..off] + a;
    assert mid[off + |a| + |b|..] == s[off + |a| + |b|..];
  }

  /** `String.getChars` / `System.arraycopy`: write `src` into `dst` from index `off`. */
  method CopyChars(src: seq<char16>, dst: array<char16>, off: nat)
    requires off + |src| <= dst.Length
    modifies dst
    ensures dst[..] == Splice(old(dst[..]), off, src)
  {
    var i := 0;
    while i < |src|
      invariant 0 <= i <= |src|
      invariant forall k :: 0 <= k < dst.Length ==> dst[k] == if off <= k < off + i then src[k - off] else old(dst[k])
    {
      dst[off + i] := src[i];
      i := i + 1;
    }
    assert dst[..] == old(dst[..])[..off] + src + old(dst[..])[off + |src|..];
  }

  /** The process's side of the tee: `mLog`, `mLogLength` and the child's output `mIn`. */
  class InterpreterProcess {
    /** `mLog`: every character ever taken from the child output, in order. */
    var log: seq<char16>
    /** `mLogLength`: kept by hand beside `mLog`. */
    var logLength: int
    /** What the child output has yet to deliver. */
    var input: seq<char16>
    /** Whether the output stream `mIn` exists (it is set when the process starts). */
    var hasInput: bool

    ghost predicate Valid()
      reads this
    {
      logLength == |log|
    }

    constructor (output: seq<char16>, started: bool)
      ensures Valid() && log == [] && input == output && hasInput == started
    {
      log := [];
      logLength := 0;
      input := output;
      hasInput := started;
    }

    /** `getIn()`: a fresh reader at the start of the log, or null before the stream exists. */
    method GetIn() returns (r: LoggingBufferedReader?)
      requires Valid()
      ensures r != null <==> hasInput
      ensures r != null ==> fresh(r) && r.process == this && r.pos == 0 && !r.skipLF && r.Valid()
    {
      if !hasInput {
        return null;
      }
      r := new LoggingBufferedReader(this);
    }
  }

  /** `LoggingBufferedReader`: replays the shared log, and pulls from the child output at its tail. */
  class LoggingBufferedReader {
    const process: InterpreterProcess
    /** `mmSkipLF`: the last line this reader replayed ended in CR. */
    var skipLF: bool
    /** `mmPos`: this reader's cursor into the shared log. */
    var pos: nat

    ghost predicate Valid()
      reads this, process
    {
      process.Valid() && pos <= process.logLength
    }

    constructor (p: InterpreterProcess)
      requires p.Valid()
      ensures process == p && pos == 0 && !skipLF && Valid()
    {
      process := p;
      skipLF := false;
      pos := 0;
    }

    // The `BufferedReader` superclass over the child output: `super.read()`,
    // `super.read(cbuf, off, len)` and `super.readLine()` consume `process.input`.

    method SuperRead() returns (c: int)
      modifies process`input
      ensures CharRead(c, process.input) == ReadChar(old(process.input))
    {
      var rc := ReadChar(process.input);
      process.input := rc.rest;
      c := rc.value;
    }

    method SuperReadInto(cbuf: array<char16>, off: nat, len: nat) returns (read: int)
      requires 0 < len && off + len <= cbuf.Length
      modifies process`input, cbuf
      ensures var cr := ReadChunk(old(process.input), len);
        && read == cr.count && process.input == cr.rest && cbuf[..] == Splice(old(cbuf[..]), off, cr.chars)
    {
      var cr := ReadChunk(process.input, len);
      CopyChars(cr.chars, cbuf, off);
      process.input := cr.rest;
      read := cr.count;
    }

    method SuperReadLine() returns (str: seq<char16>)
      requires process.input != []
      modifies process`input
      ensures (str, process.input) == NextLine(old(process.input))
    {
      var next := NextLine(process.input);
      str := next.0;
      process.input := next.1;
    }

    /** `read()`: one character, replayed when behind the tail, pulled otherwise. */
    method Read() returns (c: int)
      requires Valid()
      modifies this`pos, process`log, process`logLength, process`input
      ensures Valid()
      ensures CharStep(c, process.log, process.input, pos) == ReadStep(old(process.log), old(process.input), old(pos))
    {
      if pos == process.logLength {
        c := Read1();
      } else {
        c := process.log[pos] as int;
        pos := pos + 1;
      }
    }

    /** `read1()`: under the lock, check the tail again; pull one character, cast it to `char`, append it. */
    method Read1() returns (c: int)
      requires Valid()
      modifies this`pos, process`log, process`logLength, process`input
      ensures Valid()
      ensures CharStep(c, process.log, process.input, pos) == ReadStep(old(process.log), old(process.input), old(pos))
    {
      c := 0;
      if pos < process.logLength {
        c := process.log[pos] as int;
      } else {
        c := SuperRead();
        c := NarrowToChar16(c) as int;
        process.log := process.log + [c as char16];
        process.logLength := process.logLength + 1;
      }
      pos := pos + 1;
    }

    /** `read(cbuf, off, len)`: replay what the log holds, then pull the remainder. */
    method ReadInto(cbuf: array<char16>, off: nat, len: nat) returns (n: int)
      requires Valid() && off + len <= cbuf.Length
      modifies this`pos, process`log, process`logLength, process`input, cbuf
      ensures Valid()
      ensures var r := BulkRead(old(process.log), old(process.input), old(pos), len);
        && n == r.count && process.log == r.log && process.input == r.input && pos == r.pos
        && cbuf[..] == Splice(old(cbuf[..]), off, r.copied)
    {
      if pos == process.logLength {
        n := ReadInto1(cbuf, off, len);
        return;
      }
      ghost var log0, input0, pos0 := process.log, process.input, pos;
      ghost var replayed := log0[pos0..Min(|log0|, pos0 + len)];
      ghost var t := BulkPull(log0, input0, len - |replayed|);
      ghost var r := BulkRead(log0, input0, pos0, len);
      assert r.copied == replayed + t.copied && r.log == t.log && r.input == t.input;
      var count := ReplayInto(cbuf, off, len);
      var want := len - count;
      var at := off + count;
      assert want == len - |replayed| && pos == pos0 + |replayed|;
      assert process.log[pos0..pos] == replayed;
      ghost var mid := cbuf[..];
      assert mid == Splice(old(cbuf[..]), off, replayed);
      if want > 0 {
        BulkReadAtTail(log0, input0, want);
        var read := ReadInto1(cbuf, at, want);
        assert cbuf[..] == Splice(mid, at, t.copied) && read == t.count;
        SpliceTwice(old(cbuf[..]), off, replayed, t.copied);
        assert cbuf[..] == Splice(old(cbuf[..]), off, r.copied);
        if read < 0 {
          return read;
        }
        count := count + read;
      } else {
        assert t.copied == [] && r.copied == replayed;
      }
      n := count;
    }

    /** `read1(cbuf, off, len)`: under the lock, replay again if the log grew, then pull and append. */
    method ReadInto1(cbuf: array<char16>, off: nat, len: nat) returns (n: int)
      requires Valid() && off + len <= cbuf.Length
      modifies this`pos, process`log, process`logLength, process`input, cbuf
      ensures Valid()
      ensures var r := BulkRead(old(process.log), old(process.input), old(pos), len);
        && n == r.count && process.log == r.log && process.input == r.input && pos == r.pos
        && cbuf[..] == Splice(old(cbuf[..]), off, r.copied)
    {
      ghost var log0, input0, pos0 := process.log, process.input, pos;
      ghost var replayed := log0[pos0..Min(|log0|, pos0 + len)];
      ghost var t := BulkPull(log0, input0, len - |replayed|);
      ghost var r := BulkRead(log0, input0, pos0, len);
      assert r.copied == replayed + t.copied && r.log == t.log && r.input == t.input;
      var count := 0;
      var at := off;
      var want := len;
      if pos < process.logLength {
        count := ReplayInto(cbuf, at, want);
        want := want - count;
        at := at + count;
        assert process.log[pos0..pos] == replayed;
      } else {
        assert replayed == [];
        assert Splice(cbuf[..], off, []) == cbuf[..];
      }
      ghost var mid := cbuf[..];
      assert mid == Splice(old(cbuf[..]), off, replayed);
      assert want == len - |replayed| && pos == pos0 + |replayed|;
      if want > 0 {
        var read := PullInto(cbuf, at, want);
        assert cbuf[..] == Splice(mid, at, t.copied) && read == t.count;
        SpliceTwice(old(cbuf[..]), off, replayed, t.copied);
        assert cbuf[..] == Splice(old(cbuf[..]), off, r.copied);
        if read < 0 {
          return read;
        }
        count := count + read;
      } else {
        assert t.copied == [] && r.copied == replayed;
      }
      n := count;
    }

    /** The copy out of the log shared by `read` and `read1` (`mLog.getChars`), advancing the cursor. */
    method ReplayInto(cbuf: array<char16>, off: nat, len: nat) returns (count: nat)
      requires Valid() && off + len <= cbuf.Length
      modifies this`pos, cbuf
      ensures Valid()
      ensures count == Min(process.logLength, old(pos) + len) - old(pos) && pos == old(pos) + count
      ensures cbuf[..] == Splice(old(cbuf[..]), off, process.log[old(pos)..pos])
    {
      var end := Min(process.logLength, pos + len);
      CopyChars(process.log[pos..end], cbuf, off);
      count := end - pos;
      pos := pos + count;
    }

    /**
     * The pulling half of `read1(cbuf, off, len)`: one physical read into `cbuf`,
     * whose characters are appended to the log; the cursor moves past them.
     */
    method PullInto(cbuf: array<char16>, off: nat, len: nat) returns (read: int)
      requires Valid() && pos == process.logLength && 0 < len && off + len <= cbuf.Length
      modifies this`pos, process`log, process`logLength, process`input, cbuf
      ensures Valid()
      ensures var t := BulkPull(old(process.log), old(process.input), len);
        && read == t.count && process.log == t.log && process.input == t.input && pos == t.pos
        && cbuf[..] == Splice(old(cbuf[..]), off, t.copied)
    {
      ghost var cr := ReadChunk(process.input, len);
      read := SuperReadInto(cbuf, off, len);
      if read < 0 {
        return;
      }
      SpliceReadsBack(old(cbuf[..]), off, cr.chars);
      process.log := process.log + cbuf[off..off + read];
      process.logLength := process.logLength + read;
      pos := pos + read;
    }

    /**
     * The replay loop of `readLine()` and `readLine1()`: consume log characters up
     * to and including a terminator, swallowing one LF after a CR.
     */
    method ReplayLine() returns (buffer: seq<char16>, found: bool)
      requires Valid()
      modifies this`pos, this`skipLF
      ensures Valid()
      ensures Scan(buffer, pos, skipLF, found) == ScanLine(process.log, old(pos), old(skipLF), [])
    {
      buffer := [];
      found := false;
      while pos < process.logLength
        invariant Valid()
        invariant ScanLine(process.log, pos, skipLF, buffer) == ScanLine(process.log, old(pos), old(skipLF), [])
      {
        var c := process.log[pos];
        pos := pos + 1;
        if skipLF {
          skipLF := false;
          if c == LF {
            continue;
          }
        }
        buffer := buffer + [c];
        if c == LF {
          found := true;
          return;
        }
        if c == CR {
          skipLF := true;
          found := true;
          return;
        }
      }
    }

    /** `readLine()`: replay up to a terminator, or finish the line from the child output. */
    method ReadLine() returns (line: seq<char16>)
      requires Valid() && LineAvailable(process.log, process.input, pos, skipLF)
      modifies this`pos, this`skipLF, process`log, process`logLength, process`input
      ensures Valid()
      ensures LineStep(line, process.log, process.input, pos, skipLF)
           == ReadLineStep(old(process.log), old(process.input), old(pos), old(skipLF))
    {
      if pos == process.logLength {
        line := ReadLine1();
        return;
      }
      var buffer, found := ReplayLine();
      if found {
        return buffer;
      }
      var rest := ReadLine1();
      line := buffer + rest;
    }

    /**
     * `readLine1()`: under the lock, replay again if the log grew; otherwise take one
     * line from the child output and append it to the log with a single LF.
     */
    method ReadLine1() returns (line: seq<char16>)
      requires Valid() && LineAvailable(process.log, process.input, pos, skipLF)
      modifies this`pos, this`skipLF, process`log, process`logLength, process`input
      ensures Valid()
      ensures LineStep(line, process.log, process.input, pos, skipLF)
           == ReadLineStep(old(process.log), old(process.input), old(pos), old(skipLF))
    {
      var buffer, found := ReplayLine();
      if found {
        return buffer;
      }
      var str := SuperReadLine();
      process.log := process.log + str;
      process.log := process.log + [LF];
      process.logLength := process.logLength + |str| + 1;
      pos := pos + |str| + 1;
      line := buffer + str;
    }
  }
}
