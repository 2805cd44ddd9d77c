/** Java's `char`: a 16-bit UTF-16 code unit, and the two line terminators. */
module JavaChars {

  /** A Java `char`. Lone surrogates are ordinary values here, as they are in Java. */
  newtype char16 = c: int | 0 <= c < 0x1_0000

  const LF: char16 := 10
  const CR: char16 := 13

  predicate IsTerminator(c: char16) {
    c == LF || c == CR
  }

  /** A line's text as `readLine()` should return it: no LF or CR inside. */
  predicate HasNoTerminator(s: seq<char16>) {
    forall i :: 0 <= i < |s| ==> !IsTerminator(s[i])
  }

  /** Java's narrowing cast `(char) i`: keeps the low 16 bits of the two's-complement value. */
  function NarrowToChar16(i: int): (c: char16)
    ensures 0 <= i < 0x1_0000 ==> c as int == i
    ensures (i - c as int) % 0x1_0000 == 0
  {
    (i % 0x1_0000) as char16
  }

  /** The end-of-stream marker -1, once cast to `char`, is the code unit 0xFFFF. */
  lemma EndOfStreamCast()
    ensures NarrowToChar16(-1) == 0xFFFF
  {
  }

  function Min(a: int, b: int): (m: int)
    ensures m <= a && m <= b && (m == a || m == b)
  {
    if a <= b then a else b
  }
}
