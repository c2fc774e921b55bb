/** String literals: escapes, UTF-16 literals, and the two passes over a literal in either direction. */
module JsonStrings {
  import opened Options
  import opened JsonText

  // ---------------------------------------------------------------- hexadecimal digits

  function HexValue(b: Byte): Option<nat> {
    if 0x30 <= b <= 0x39 then Some(b - 0x30)
    else if 0x41 <= b <= 0x46 then Some(b - 0x41 + 10)
    else if 0x61 <= b <= 0x66 then Some(b - 0x61 + 10)
    else None
  }

  /** The digit that sprintf writes for %x. */
  function HexDigit(n: nat): Byte
    requires n < 16
  {
    if n < 10 then 0x30 + n else 0x61 + (n - 10)
  }

  /** Four hexadecimal digits at p, or 0 if one of them is none. */
  function Hex4(t: seq<Byte>, p: nat): (h: nat)
    requires p + 4 <= |t|
    ensures h < 0x10000
  {
    var a, b, c, d := HexValue(t[p]), HexValue(t[p + 1]), HexValue(t[p + 2]), HexValue(t[p + 3]);
    if a.Some? && b.Some? && c.Some? && d.Some?
    then a.value * 0x1000 + b.value * 0x100 + c.value * 0x10 + d.value
    else 0
  }

  predicate AllHex(digits: seq<Byte>) {
    forall j :: 0 <= j < |digits| ==> HexValue(digits[j]).Some?
  }

  function HexNumber(digits: seq<Byte>): nat
    requires AllHex(digits)
  {
    if digits == [] then 0 else HexNumber(digits[..|digits| - 1]) * 16 + HexValue(digits[|digits| - 1]).value
  }

  /** Read digit by digit, four digits are the number they denote. */
  lemma Hex4IsHexNumber(t: seq<Byte>, p: nat)
    requires p + 4 <= |t|
    ensures var digits := t[p..p + 4];
            Hex4(t, p) == if AllHex(digits) then HexNumber(digits) else 0
  {
    var digits := t[p..p + 4];
    assert t[p] == digits[0] && t[p + 1] == digits[1] && t[p + 2] == digits[2] && t[p + 3] == digits[3];
    if AllHex(digits) {
      assert digits[..3][..2] == digits[..2] && digits[..2][..1] == digits[..1] && digits[..1][..0] == [];
      assert HexNumber(digits[..1]) == HexValue(digits[0]).value;
      assert HexNumber(digits[..2]) == HexNumber(digits[..1]) * 16 + HexValue(digits[1]).value;
      assert HexNumber(digits[..3]) == HexNumber(digits[..2]) * 16 + HexValue(digits[2]).value;
    }
  }

  method ParseHex4(t: seq<Byte>, p: nat) returns (h: nat)
    requires p + 4 <= |t|
    ensures h == Hex4(t, p)
  {
    ghost var digits := t[p..p + 4];
    Hex4IsHexNumber(t, p);
    h := 0;
    var i := 0;
    while i < 4
      invariant 0 <= i <= 4
      invariant AllHex(digits[..i])
      invariant h == if i < 4 then HexNumber(digits[..i]) * 16 else HexNumber(digits[..i])
    {
      var b := t[p + i];
      assert b == digits[i] && digits[..i + 1] == digits[..i] + [b];
      if 0x30 <= b <= 0x39 {
        h := h + (b - 0x30);
      } else if 0x41 <= b <= 0x46 {
        h := h + 10 + (b - 0x41);
      } else if 0x61 <= b <= 0x66 {
        h := h + 10 + (b - 0x61);
      } else {
        return 0;
      }
      if i < 3 {
        h := h * 16;
      }
      i := i + 1;
    }
    assert digits[..4] == digits;
  }

  // ---------------------------------------------------------------- UTF-16 literals and UTF-8

  /** Section 3 of RFC 3629. */
  function Utf8(c: nat): (s: seq<Byte>)
    requires c <= 0x10FFFF
    ensures 1 <= |s| <= 4
    ensures |s| == if c < 0x80 then 1 else if c < 0x800 then 2 else if c < 0x10000 then 3 else 4
  {
    if c < 0x80 then [c]
    else if c < 0x800 then [0xC0 + c / 0x40, 0x80 + c % 0x40]
    else if c < 0x10000 then [0xE0 + c / 0x1000, 0x80 + c / 0x40 % 0x40, 0x80 + c % 0x40]
    else [0xF0 + c / 0x40000, 0x80 + c / 0x1000 % 0x40, 0x80 + c / 0x40 % 0x40, 0x80 + c % 0x40]
  }

  predicate Continuation(b: Byte) {
    0x80 <= b < 0xC0
  }

  /** The decoder of section 3 of RFC 3629, which rejects overlong forms. */
  function Utf8Value(s: seq<Byte>): Option<nat> {
    if |s| == 1 && s[0] < 0x80 then Some(s[0])
    else if |s| == 2 && 0xC0 <= s[0] < 0xE0 && Continuation(s[1]) then
      AtLeast(0x80, (s[0] as int - 0xC0) * 0x40 + (s[1] as int - 0x80))
    else if |s| == 3 && 0xE0 <= s[0] < 0xF0 && Continuation(s[1]) && Continuation(s[2]) then
      AtLeast(0x800, (s[0] as int - 0xE0) * 0x1000 + (s[1] as int - 0x80) * 0x40 + (s[2] as int - 0x80))
    else if |s| == 4 && 0xF0 <= s[0] < 0xF8 && Continuation(s[1]) && Continuation(s[2]) && Continuation(s[3]) then
      AtLeast(0x10000, (s[0] as int - 0xF0) * 0x40000 + (s[1] as int - 0x80) * 0x1000 + (s[2] as int - 0x80) * 0x40 + (s[3] as int - 0x80))
    else None
  }

  function AtLeast(low: nat, c: nat): Option<nat> {
    if low <= c then Some(c) else None
  }

  /** Every code point is read back from its encoding. */
  lemma Utf8RoundTrip(c: nat)
    requires c <= 0x10FFFF
    ensures Utf8Value(Utf8(c)) == Some(c)
  {
    assert c / 0x1000 == c / 0x40 / 0x40 && c / 0x40000 == c / 0x1000 / 0x40;
  }

  /** A code point after k turns of the encoding loop. */
  function Shift(c: nat, k: nat): nat {
    if k == 0 then c else Shift(c, k - 1) / 0x40
  }

  function FirstByteMark(n: nat): nat {
    if n == 2 then 0xC0 else if n == 3 then 0xE0 else if n == 4 then 0xF0 else 0
  }

  /** The encoding, from the last byte to the first. */
  lemma Utf8ByShifts(c: nat)
    requires c <= 0x10FFFF
    ensures var s, n := Utf8(c), |Utf8(c)|;
            && s[0] == FirstByteMark(n) + Shift(c, n - 1)
            && forall j :: 1 <= j < n ==> s[j] == 0x80 + Shift(c, n - 1 - j) % 0x40
  {
    assert Shift(c, 1) == c / 0x40 && Shift(c, 2) == c / 0x40 / 0x40 == c / 0x1000;
    assert Shift(c, 3) == c / 0x1000 / 0x40 == c / 0x40000;
  }

  /**
    The bit operations of the encoding loop, as arithmetic on words. EncodeBytes in JsonParseBuffer uses the
    right hand sides on numbers; that its quotients and remainders are those of words is not proved.
   */
  lemma EncodingBits(c: bv32)
    ensures ((c | 0x80) & 0xBF) == 0x80 + c % 0x40 && c >> 6 == c / 0x40
    ensures c < 0x20 ==> ((c | 0xC0) & 0xFF) == 0xC0 + c
    ensures c < 0x10 ==> ((c | 0xE0) & 0xFF) == 0xE0 + c
    ensures c < 0x08 ==> ((c | 0xF0) & 0xFF) == 0xF0 + c
    ensures c < 0x80 ==> (c & 0x7F) == c
  {
  }

  /** Likewise for the two halves of a surrogate pair in ReadLiteral. */
  lemma SurrogateBits(first: bv32, second: bv32)
    requires 0xD800 <= first <= 0xDBFF && 0xDC00 <= second <= 0xDFFF
    ensures 0x10000 + (((first & 0x3FF) << 10) | (second & 0x3FF))
         == 0x10000 + (first - 0xD800) * 0x400 + (second - 0xDC00)
  {
  }

  datatype Literal = Literal(codepoint: nat, length: nat) | BadLiteral

  /** The literal \uXXXX or \uXXXX\uXXXX at p, which must end before `end` (section 2.2 of RFC 2781). */
  function Utf16(t: seq<Byte>, p: nat, end: nat): (l: Literal)
    requires p <= end <= |t|
    ensures l.Literal? ==> p + l.length <= end && l.codepoint <= 0x10FFFF
    ensures l.Literal? ==> (l.length == 6 && l.codepoint < 0x10000) || l.length == 12
  {
    if end - p < 6 then BadLiteral
    else
      var first := Hex4(t, p + 2);
      if 0xDC00 <= first <= 0xDFFF then BadLiteral
      else if 0xD800 <= first <= 0xDBFF then
        if end - (p + 6) < 6 || t[p + 6] != BACKSLASH || t[p + 7] != LOWER_U then BadLiteral
        else
          var second := Hex4(t, p + 8);
          if second < 0xDC00 || second > 0xDFFF then BadLiteral
          else Literal(0x10000 + (first - 0xD800) * 0x400 + (second - 0xDC00), 12)
      else Literal(first, 6)
  }

  // ---------------------------------------------------------------- reading a literal

  /** The closing quote of a literal whose contents start at p; a backslash hides the byte after it. */
  function StringEnd(t: seq<Byte>, p: nat): (e: Option<nat>)
    requires p <= |t|
    ensures e.Some? ==> p <= e.value < |t| && t[e.value] == QUOTE
    decreases |t| - p
  {
    if p == |t| then None
    else if t[p] == QUOTE then Some(p)
    else if t[p] != BACKSLASH then StringEnd(t, p + 1)
    else if p + 1 == |t| then None
    else StringEnd(t, p + 2)
  }

  datatype Decoded = Decoded(bytes: seq<Byte>) | BadEscape(at: nat)

  function Prepend(bytes: seq<Byte>, d: Decoded): Decoded {
    if d.Decoded? then Decoded(bytes + d.bytes) else d
  }

  /** The byte that a two-byte escape stands for. */
  function Unescape(b: Byte): Option<Byte> {
    if b == LOWER_B then Some(BACKSPACE)
    else if b == LOWER_F then Some(FORM_FEED)
    else if b == LOWER_N then Some(NEWLINE)
    else if b == LOWER_R then Some(RETURN)
    else if b == LOWER_T then Some(TAB)
    else if b == QUOTE || b == BACKSLASH || b == SLASH then Some(b)
    else None
  }

  /** The second pass: the bytes that the literal's contents between p and `end` stand for. */
  function Decode(t: seq<Byte>, p: nat, end: nat): (d: Decoded)
    requires end < |t|
    ensures d.BadEscape? ==> p <= d.at < end
    decreases end - p, 1
  {
    if p >= end then Decoded([])
    else if t[p] != BACKSLASH then Prepend([t[p]], Decode(t, p + 1, end))
    else DecodeEscape(t, p, end)
  }

  function DecodeEscape(t: seq<Byte>, p: nat, end: nat): (d: Decoded)
    requires p < end < |t|
    ensures d.BadEscape? ==> p <= d.at < end
    decreases end - p, 0
  {
    if t[p + 1] == LOWER_U then
      var l := Utf16(t, p, end);
      if l.BadLiteral? then BadEscape(p) else Prepend(Utf8(l.codepoint), Decode(t, p + l.length, end))
    else
      var b := Unescape(t[p + 1]);
      if b.None? then BadEscape(p) else Prepend([b.value], Decode(t, p + 2, end))
  }

  // ---------------------------------------------------------------- the first pass reserves enough

  /** The first pass, started at `start`, takes the backslash at i for the start of an escape. */
  predicate Introduces(t: seq<Byte>, start: nat, i: nat)
    requires start <= i < |t|
    decreases i
  {
    t[i] == BACKSLASH && !(i > start && Introduces(t, start, i - 1))
  }

  /** The bytes between a and b that the first pass counts. */
  function Kept(t: seq<Byte>, start: nat, a: nat, b: nat): (n: nat)
    requires start <= a && b <= |t|
    ensures n <= if a <= b then b - a else 0
    decreases b
  {
    if b <= a then 0 else Kept(t, start, a, b - 1) + if Introduces(t, start, b - 1) then 0 else 1
  }

  lemma {:induction false} KeptSplit(t: seq<Byte>, start: nat, a: nat, m: nat, b: nat)
    requires start <= a <= m <= b <= |t|
    ensures Kept(t, start, a, b) == Kept(t, start, a, m) + Kept(t, start, m, b)
    decreases b
  {
    if m < b {
      KeptSplit(t, start, a, m, b - 1);
    }
  }

  /** No two escapes start next to each other, so half of the bytes are counted. */
  lemma {:induction false} KeptHalf(t: seq<Byte>, start: nat, a: nat, n: nat)
    requires start <= a && a + 2 * n <= |t|
    ensures Kept(t, start, a, a + 2 * n) >= n
    decreases n
  {
    if n > 0 {
      KeptHalf(t, start, a, n - 1);
      var b := a + 2 * n;
      assert !(Introduces(t, start, b - 2) && Introduces(t, start, b - 1));
      assert Kept(t, start, a, b) == Kept(t, start, a, b - 1) + if Introduces(t, start, b - 1) then 0 else 1;
      assert Kept(t, start, a, b - 1) == Kept(t, start, a, b - 2) + if Introduces(t, start, b - 2) then 0 else 1;
    }
  }

  /** The first pass reaches p: no escape starts right before it. */
  ghost predicate Reached(t: seq<Byte>, start: nat, p: nat) {
    start <= p <= |t| && (p > start ==> !Introduces(t, start, p - 1))
  }

  /** The first pass stops at its quote, having counted Kept bytes. */
  lemma {:induction false} FirstPassReaches(t: seq<Byte>, start: nat, p: nat)
    requires Reached(t, start, p)
    ensures var e := StringEnd(t, p); e.Some? ==> Reached(t, start, e.value)
    decreases |t| - p
  {
    if p < |t| && t[p] != QUOTE && (t[p] != BACKSLASH || p + 1 < |t|) {
      if t[p] == BACKSLASH {
        assert Introduces(t, start, p);
        FirstPassReaches(t, start, p + 2);
      } else {
        FirstPassReaches(t, start, p + 1);
      }
    }
  }

  lemma PlainFits(t: seq<Byte>, start: nat, p: nat)
    requires start <= p < |t| && t[p] != BACKSLASH
    ensures Kept(t, start, p, p + 1) == 1
  {
  }

  lemma LiteralFits(t: seq<Byte>, start: nat, p: nat, end: nat)
    requires start <= p < end <= |t| && Utf16(t, p, end).Literal?
    ensures var l := Utf16(t, p, end); |Utf8(l.codepoint)| <= Kept(t, start, p, p + l.length)
  {
    if Utf16(t, p, end).length == 6 {
      KeptHalf(t, start, p, 3);
    } else {
      KeptHalf(t, start, p, 6);
    }
  }

  /** An escape that the second pass takes from the last two bytes may cover the closing quote. */
  lemma EscapeFits(t: seq<Byte>, start: nat, p: nat, end: nat)
    requires start <= p < end < |t| && Reached(t, start, end)
    ensures 1 <= Kept(t, start, p, if p + 2 <= end then p + 2 else end)
  {
    if p + 2 <= end {
      KeptHalf(t, start, p, 1);
    } else {
      assert Kept(t, start, p, end) == 1;
    }
  }

  /**
    For every literal, malformed ones included, the second pass writes no more bytes than the first pass
    counted. A malformed \u group may swallow a backslash, so that the passes disagree on where the escapes
    start.
   */
  lemma {:induction false} DecodeFits(t: seq<Byte>, start: nat, p: nat, end: nat)
    requires start <= p && end < |t| && Reached(t, start, end)
    ensures var d := Decode(t, p, end); d.Decoded? ==> |d.bytes| <= Kept(t, start, p, end)
    decreases end - p
  {
    if p < end {
      if t[p] != BACKSLASH {
        PlainFits(t, start, p);
        KeptSplit(t, start, p, p + 1, end);
        DecodeFits(t, start, p + 1, end);
      } else {
        EscapeDecodeFits(t, start, p, end);
      }
    }
  }

  lemma {:induction false} EscapeDecodeFits(t: seq<Byte>, start: nat, p: nat, end: nat)
    requires start <= p < end < |t| && Reached(t, start, end)
    ensures var d := DecodeEscape(t, p, end); d.Decoded? ==> |d.bytes| <= Kept(t, start, p, end)
    decreases end - p, 0
  {
    if t[p + 1] == LOWER_U {
      var l := Utf16(t, p, end);
      if l.Literal? {
        LiteralFits(t, start, p, end);
        KeptSplit(t, start, p, p + l.length, end);
        DecodeFits(t, start, p + l.length, end);
      }
    } else if Unescape(t[p + 1]).Some? {
      EscapeFits(t, start, p, end);
      KeptSplit(t, start, p, if p + 2 <= end then p + 2 else end, end);
      DecodeFits(t, start, p + 2, end);
    }
  }

  /** parse_string's allocation holds the result and its terminator. */
  lemma AllocationSuffices(t: seq<Byte>, start: nat, end: nat)
    requires start <= |t| && StringEnd(t, start) == Some(end)
    ensures var d := Decode(t, start, end); d.Decoded? ==> |d.bytes| <= Kept(t, start, start, end)
  {
    FirstPassReaches(t, start, start);
    DecodeFits(t, start, start, end);
  }

  // ---------------------------------------------------------------- writing a literal

  /** The letter of a two-byte escape. */
  function ShortEscape(b: NonZero): Option<Byte> {
    if b == BACKSPACE then Some(LOWER_B)
    else if b == FORM_FEED then Some(LOWER_F)
    else if b == NEWLINE then Some(LOWER_N)
    else if b == RETURN then Some(LOWER_R)
    else if b == TAB then Some(LOWER_T)
    else if b == QUOTE || b == BACKSLASH then Some(b)
    else None
  }

  function EscapeByte(b: NonZero): (s: seq<Byte>)
    ensures |s| == if ShortEscape(b).Some? then 2 else if b < 0x20 then 6 else 1
  {
    var e := ShortEscape(b);
    if e.Some? then [BACKSLASH, e.value]
    else if b < 0x20 then [BACKSLASH, LOWER_U, 0x30, 0x30, HexDigit(b / 16), HexDigit(b % 16)]
    else [b]
  }

  function Escape(s: CString): (r: seq<Byte>)
  {
    if s == [] then [] else EscapeByte(s[0]) + Escape(s[1..])
  }

  /** The whole literal, as section 7 of RFC 8259 requires it. */
  function Quoted(s: CString): seq<Byte> {
    [QUOTE] + Escape(s) + [QUOTE]
  }

  /** The bytes that escaping adds, as print_string_ptr counts them. */
  function Extra(s: CString): nat {
    if s == [] then 0
    else Extra(s[..|s| - 1]) + ExtraFor(s[|s| - 1])
  }

  function ExtraFor(b: NonZero): nat {
    if ShortEscape(b).Some? then 1 else if b < 0x20 then 5 else 0
  }

  lemma {:induction false} EscapeAppend(s: CString, b: NonZero)
    ensures Escape(s + [b]) == Escape(s) + EscapeByte(b)
  {
    if s == [] {
      assert s + [b] == [b] && [b][1..] == [];
      assert Escape([b]) == EscapeByte(b) + Escape([]);
    } else {
      EscapeAppend(s[1..], b);
      assert (s + [b])[1..] == s[1..] + [b];
      assert Escape(s + [b]) == EscapeByte(s[0]) + (Escape(s[1..]) + EscapeByte(b));
    }
  }

  /** The counted length is the length that is written. */
  lemma {:induction false} CountedLength(s: CString)
    ensures |Escape(s)| == |s| + Extra(s)
  {
    if s != [] {
      var n := |s| - 1;
      CountedLength(s[..n]);
      EscapeAppend(s[..n], s[n]);
      assert s == s[..n] + [s[n]];
    }
  }

  // ---------------------------------------------------------------- a written literal is read back

  lemma PlainByte(t: seq<Byte>, p: nat, end: nat)
    requires p < end < |t| && t[p] != QUOTE && t[p] != BACKSLASH
    ensures StringEnd(t, p) == StringEnd(t, p + 1)
    ensures Decode(t, p, end) == Prepend([t[p]], Decode(t, p + 1, end))
  {
  }

  lemma HexDigits(b: nat)
    requires b < 0x20
    ensures HexValue(HexDigit(b / 16)) == Some(b / 16) && HexValue(HexDigit(b % 16)) == Some(b % 16)
    ensures HexDigit(b / 16) != QUOTE && HexDigit(b / 16) != BACKSLASH
    ensures HexDigit(b % 16) != QUOTE && HexDigit(b % 16) != BACKSLASH
  {
  }

  lemma UnicodeEscape(t: seq<Byte>, p: nat, end: nat, b: NonZero)
    requires b < 0x20 && ShortEscape(b).None? && At(t, p, EscapeByte(b)) && p + 6 <= end < |t|
    ensures StringEnd(t, p) == StringEnd(t, p + 6)
    ensures Decode(t, p, end) == Prepend([b], Decode(t, p + 6, end))
  {
    var s := EscapeByte(b);
    forall i | 0 <= i < 6
      ensures t[p + i] == s[i]
    {
      AtByte(t, p, s, i);
    }
    HexDigits(b);
    assert t[p] == BACKSLASH && t[p + 1] == LOWER_U && t[p + 2] == 0x30 && t[p + 3] == 0x30;
    assert t[p + 4] == s[4] && t[p + 5] == s[5];
    assert StringEnd(t, p) == StringEnd(t, p + 2);
    assert StringEnd(t, p + 2) == StringEnd(t, p + 3) == StringEnd(t, p + 4);
    assert StringEnd(t, p + 4) == StringEnd(t, p + 5) == StringEnd(t, p + 6);
    assert Hex4(t, p + 2) == b;
    assert Utf16(t, p, end) == Literal(b, 6);
  }

  lemma EscapeIsRead(t: seq<Byte>, p: nat, end: nat, b: NonZero)
    requires At(t, p, EscapeByte(b)) && p + |EscapeByte(b)| <= end < |t|
    ensures StringEnd(t, p) == StringEnd(t, p + |EscapeByte(b)|)
    ensures Decode(t, p, end) == Prepend([b], Decode(t, p + |EscapeByte(b)|, end))
  {
    var s := EscapeByte(b);
    AtByte(t, p, s, 0);
    if ShortEscape(b).Some? {
      AtByte(t, p, s, 1);
      assert Unescape(t[p + 1]) == Some(b);
    } else if b < 0x20 {
      UnicodeEscape(t, p, end, b);
    } else {
      PlainByte(t, p, end);
    }
  }

  /** Both passes over an escaped string: the first finds its end, the second gives its bytes back. */
  lemma {:induction false} EscapedIsRead(t: seq<Byte>, p: nat, s: CString)
    requires At(t, p, Escape(s) + [QUOTE])
    ensures var end := p + |Escape(s)|;
            StringEnd(t, p) == Some(end) && Decode(t, p, end) == Decoded(s)
    decreases |s|
  {
    var end := p + |Escape(s)|;
    if s == [] {
      AtByte(t, p, Escape(s) + [QUOTE], 0);
    } else {
      var e, rest := EscapeByte(s[0]), Escape(s[1..]);
      SplitThree(t, p, e, rest, [QUOTE]);
      EscapedIsRead(t, p + |e|, s[1..]);
      EscapeIsRead(t, p, end, s[0]);
      assert [s[0]] + s[1..] == s;
    }
  }

  lemma SplitThree(t: seq<Byte>, p: nat, a: seq<Byte>, b: seq<Byte>, c: seq<Byte>)
    requires At(t, p, a + b + c)
    ensures At(t, p, a) && At(t, p + |a|, b + c)
  {
    assert a + b + c == a + (b + c);
    AtSplit(t, p, a, b + c);
  }
}
