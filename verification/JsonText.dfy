/** Bytes, and texts at a position of a buffer. */
module JsonText {
  type Byte = b: int | 0 <= b < 0x100

  /** A byte of a C string. */
  type NonZero = b: int | 0 < b < 0x100 witness 1

  type CString = seq<NonZero>

  const QUOTE: Byte := 0x22
  const BACKSLASH: Byte := 0x5C
  const SLASH: Byte := 0x2F
  const BACKSPACE: Byte := 0x08
  const FORM_FEED: Byte := 0x0C
  const NEWLINE: Byte := 0x0A
  const RETURN: Byte := 0x0D
  const TAB: Byte := 0x09
  const SPACE: Byte := 0x20
  const COMMA: Byte := 0x2C
  const COLON: Byte := 0x3A
  const MINUS: Byte := 0x2D
  const OPEN_BRACKET: Byte := 0x5B
  const CLOSE_BRACKET: Byte := 0x5D
  const OPEN_BRACE: Byte := 0x7B
  const CLOSE_BRACE: Byte := 0x7D
  const LOWER_B: Byte := 0x62
  const LOWER_F: Byte := 0x66
  const LOWER_N: Byte := 0x6E
  const LOWER_R: Byte := 0x72
  const LOWER_T: Byte := 0x74
  const LOWER_U: Byte := 0x75

  /** The bytes of a text in ASCII. */
  function Ascii(s: string): (t: seq<Byte>)
    requires forall i :: 0 <= i < |s| ==> s[i] as int < 0x80
    ensures |t| == |s| && forall i :: 0 <= i < |s| ==> t[i] == s[i] as int
  {
    seq(|s|, i requires 0 <= i < |s| => s[i] as int)
  }

  lemma BytesAreAscii()
    ensures [QUOTE, BACKSLASH, SLASH, COMMA, COLON, MINUS, SPACE] == Ascii("\"\\/,:- ")
    ensures [OPEN_BRACKET, CLOSE_BRACKET, OPEN_BRACE, CLOSE_BRACE] == Ascii("[]{}")
    ensures [LOWER_B, LOWER_F, LOWER_N, LOWER_R, LOWER_T, LOWER_U] == Ascii("bfnrtu")
    ensures [NEWLINE, RETURN, TAB] == Ascii("\n\r\t") && BACKSPACE == 8 && FORM_FEED == 12
  {
  }

  /** The input buffer of the parser ends in a zero byte. That it is the first one is not relied upon. */
  ghost predicate Terminated(t: seq<Byte>) {
    |t| > 0 && t[|t| - 1] == 0
  }

  /** Text s stands at position p. */
  ghost predicate At(t: seq<Byte>, p: nat, s: seq<Byte>) {
    p + |s| <= |t| && t[p..p + |s|] == s
  }

  lemma AtSplit(t: seq<Byte>, p: nat, a: seq<Byte>, b: seq<Byte>)
    requires At(t, p, a + b)
    ensures At(t, p, a) && At(t, p + |a|, b)
  {
    var n := |a + b|;
    assert t[p..p + |a|] == t[p..p + n][..|a|];
    assert t[p + |a|..p + |a| + |b|] == t[p..p + n][|a|..];
  }

  lemma AtByte(t: seq<Byte>, p: nat, s: seq<Byte>, i: nat)
    requires At(t, p, s) && i < |s|
    ensures t[p + i] == s[i]
  {
    assert t[p..p + |s|][i] == s[i];
  }

  /** buffer_skip_whitespace: over every byte up to a space, and never off the buffer. */
  function Skip(t: seq<Byte>, p: nat): (q: nat)
    requires p < |t|
    ensures p <= q < |t|
    ensures t[q] > SPACE || q == |t| - 1
    decreases |t| - p
  {
    if t[p] > SPACE || p + 1 == |t| then p else Skip(t, p + 1)
  }
}
