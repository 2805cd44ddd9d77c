/**
 * The child process's output as each reader's `BufferedReader` superclass
 * delivers it: the characters not yet read, consumed front to back.
 */
module ChildOutput {
  import opened JavaChars

  /** Result of `super.read()`: a character code, or -1 at end of stream. */
  datatype CharRead = CharRead(value: int, rest: seq<char16>)

  function ReadChar(input: seq<char16>): (r: CharRead)
    ensures input == [] ==> r == CharRead(-1, [])
    ensures input != [] ==> r.value == input[0] as int && input == [input[0]] + r.rest
  {
    if input == [] then CharRead(-1, []) else CharRead(input[0] as int, input[1..])
  }

  /** Result of `super.read(cbuf, off, len)`: how many characters, which, and what is left. */
  datatype ChunkRead = ChunkRead(count: int, chars: seq<char16>, rest: seq<char16>)

  /** A bulk read of `len > 0` characters delivers as many as remain, up to `len`; -1 at end of stream. */
  function ReadChunk(input: seq<char16>, len: nat): (r: ChunkRead)
    requires len > 0
    ensures input == [] <==> r.count == -1
    ensures r.count == -1 ==> r.chars == [] && r.rest == []
    ensures r.count != -1 ==> 0 < r.count == |r.chars| <= len && input == r.chars + r.rest
    ensures |r.chars| == Min(len, |input|)
  {
    if input == [] then ChunkRead(-1, [], [])
    else
      var n := Min(len, |input|);
      ChunkRead(n, input[..n], input[n..])
  }

  /** The terminators `super.readLine()` recognises: LF, CR, CR LF, or none at end of stream. */
  predicate IsLineEnd(t: seq<char16>, rest: seq<char16>) {
    t == [LF] || t == [CR, LF] || (t == [CR] && (rest == [] || rest[0] != LF)) || (t == [] && rest == [])
  }

  /**
   * `super.readLine()` on a stream that is not at its end: the text up to the
   * first terminator, with the terminator consumed but not returned.
   */
  function NextLine(input: seq<char16>): (r: (seq<char16>, seq<char16>))
    requires input != []
    ensures |r.0| + |r.1| <= |input| && |r.1| < |input|
    ensures HasNoTerminator(r.0)
  {
    if input[0] == LF then ([], input[1..])
    else if input[0] == CR then
      if |input| > 1 && input[1] == LF then ([], input[2..]) else ([], input[1..])
    else if |input| == 1 then (input, [])
    else
      var (line, rest) := NextLine(input[1..]);
      ([input[0]] + line, rest)
  }

  /**
   * `super.readLine()` consumes the returned text, then one terminator (LF, CR LF,
   * or a CR not followed by LF; none only at end of stream), and leaves the rest.
   */
  lemma {:induction false} NextLineSplits(input: seq<char16>)
    requires input != []
    ensures var (line, rest) := NextLine(input);
      && input[..|line|] == line && input[|input| - |rest|..] == rest
      && IsLineEnd(input[|line|..|input| - |rest|], rest)
  {
    if !IsTerminator(input[0]) && |input| > 1 {
      NextLineSplits(input[1..]);
      var (line, rest) := NextLine(input[1..]);
      assert input[1 + |line|..|input| - |rest|] == input[1..][|line|..|input[1..]| - |rest|];
    }
  }

  /** A character that is not a terminator belongs to the line that follows it. */
  lemma NextLineCons(c: char16, s: seq<char16>)
    requires !IsTerminator(c) && s != []
    ensures NextLine([c] + s) == ([c] + NextLine(s).0, NextLine(s).1)
  {
    assert ([c] + s)[1..] == s;
  }

  /** The line `super.readLine()` returns never holds a terminator, so it is never "\n". */
  lemma NextLineIsNeverLF(input: seq<char16>)
    requires input != []
    ensures NextLine(input).0 != [LF]
  {
    var line := NextLine(input).0;
    if line == [LF] {
      assert IsTerminator(line[0]);
    }
  }
}
