/** Which string literals are accepted, against the grammar in section 7 of RFC 8259. */
module JsonGrammar {
  import opened Options
  import opened Seals
  import opened JsonText
  import opened JsonStrings
  import opened JsonParser

  // ---------------------------------------------------------------- the grammar

  /** What the byte after a backslash stands for, by the table in section 7 of RFC 8259; `u` is not in it. */
  function EscapeMeans(b: Byte): Option<Byte> {
    match b
    case 0x22 => Some(0x22)
    case 0x5C => Some(0x5C)
    case 0x2F => Some(0x2F)
    case 0x62 => Some(0x08)
    case 0x66 => Some(0x0C)
    case 0x6E => Some(0x0A)
    case 0x72 => Some(0x0D)
    case 0x74 => Some(0x09)
    case _ => None
  }

  lemma UnescapeIs(b: Byte)
    ensures Unescape(b) == EscapeMeans(b)
  {
  }

  /** A hexadecimal digit, in either case, and its value. */
  predicate IsHexDigit(b: Byte, n: nat) {
    n < 16 && (b == "0123456789abcdef"[n] as int || b == "0123456789ABCDEF"[n] as int)
  }

  lemma HexValueIs(b: Byte, n: nat)
    ensures HexValue(b) == Some(n) <==> IsHexDigit(b, n)
  {
  }

  predicate FourHex(t: seq<Byte>, p: nat) {
    p + 4 <= |t| && HexValue(t[p]).Some? && HexValue(t[p + 1]).Some? && HexValue(t[p + 2]).Some? && HexValue(t[p + 3]).Some?
  }

  /** unescaped: no control byte, no quote, no backslash. Bytes above ASCII belong to encoded characters. */
  predicate Unescaped(b: Byte) {
    b >= 0x20 && b != QUOTE && b != BACKSLASH
  }

  /** What stands between p and end is a sequence of chars of the grammar. */
  predicate Chars(t: seq<Byte>, p: nat, end: nat)
    requires end <= |t|
    decreases end - p
  {
    if p >= end then p == end
    else if t[p] != BACKSLASH then Unescaped(t[p]) && Chars(t, p + 1, end)
    else if p + 1 >= end then false
    else if t[p + 1] == LOWER_U then p + 6 <= end && FourHex(t, p + 2) && Chars(t, p + 6, end)
    else EscapeMeans(t[p + 1]).Some? && Chars(t, p + 2, end)
  }

  /** After the literal at p a second one gives a low surrogate. */
  predicate LowFollows(t: seq<Byte>, p: nat, end: nat)
    requires end <= |t|
  {
    && p + 12 <= end && t[p + 6] == BACKSLASH && t[p + 7] == LOWER_U
    && 0xDC00 <= Hex4(t, p + 8) <= 0xDFFF
  }

  /** Surrogates come in pairs, a high one before a low one (section 2.2 of RFC 2781). */
  predicate Paired(t: seq<Byte>, p: nat, end: nat)
    requires end <= |t|
    decreases end - p
  {
    if p >= end then true
    else if t[p] != BACKSLASH then Paired(t, p + 1, end)
    else if p + 6 > end || t[p + 1] != LOWER_U then Paired(t, p + 2, end)
    else
      var code := Hex4(t, p + 2);
      if 0xDC00 <= code <= 0xDFFF then false
      else if 0xD800 <= code <= 0xDBFF then LowFollows(t, p, end) && Paired(t, p + 12, end)
      else Paired(t, p + 6, end)
  }

  /** What chars of the grammar stand for, in UTF-8. */
  function CharsMean(t: seq<Byte>, p: nat, end: nat): seq<Byte>
    requires end <= |t| && Chars(t, p, end) && Paired(t, p, end)
    decreases end - p
  {
    if p >= end then []
    else if t[p] != BACKSLASH then [t[p]] + CharsMean(t, p + 1, end)
    else if t[p + 1] != LOWER_U then [EscapeMeans(t[p + 1]).value] + CharsMean(t, p + 2, end)
    else
      var code := Hex4(t, p + 2);
      if code < 0xD800 || code > 0xDFFF then Utf8(code) + CharsMean(t, p + 6, end)
      else
        assert Chars(t, p + 6, end);
        Utf8(0x10000 + (code - 0xD800) * 0x400 + (Hex4(t, p + 8) - 0xDC00)) + CharsMean(t, p + 12, end)
  }

  /** What the parser does not look at: no control byte, and four digits after every \u that starts an escape. */
  ghost predicate Clean(t: seq<Byte>, start: nat, p: nat, end: nat)
    requires start <= p && end < |t|
  {
    && (forall i :: p <= i < end ==> t[i] >= 0x20)
    && (forall i :: p <= i < end && Introduces(t, start, i) && t[i + 1] == LOWER_U ==> i + 6 <= end && FourHex(t, i + 2))
  }

  // ---------------------------------------------------------------- the first pass

  /** A quote that no backslash hides from the first pass. */
  ghost predicate Visible(t: seq<Byte>, start: nat, i: nat)
    requires start <= i < |t|
  {
    t[i] == QUOTE && (i > start ==> !Introduces(t, start, i - 1))
  }

  /** The first pass stops at the first quote that is not hidden by a backslash, and fails only without one. */
  lemma {:induction false} EndIsFirstVisible(t: seq<Byte>, start: nat, p: nat)
    requires Reached(t, start, p)
    ensures var e := StringEnd(t, p);
            && (forall i :: p <= i < (if e.Some? then e.value else |t|) ==> !Visible(t, start, i))
            && (e.Some? ==> p <= e.value && Visible(t, start, e.value))
    decreases |t| - p
  {
    if p < |t| && t[p] != QUOTE {
      if t[p] != BACKSLASH {
        EndIsFirstVisible(t, start, p + 1);
      } else if p + 1 < |t| {
        assert Introduces(t, start, p);
        EndIsFirstVisible(t, start, p + 2);
      }
    }
  }

  /** The first pass runs over four digits one by one, and none of them starts an escape. */
  lemma OverHex(t: seq<Byte>, start: nat, p: nat)
    requires start <= p && FourHex(t, p)
    ensures StringEnd(t, p) == StringEnd(t, p + 4)
    ensures !Introduces(t, start, p) && !Introduces(t, start, p + 1)
    ensures !Introduces(t, start, p + 2) && !Introduces(t, start, p + 3)
  {
    assert StringEnd(t, p) == StringEnd(t, p + 1) == StringEnd(t, p + 2);
    assert StringEnd(t, p + 2) == StringEnd(t, p + 3) == StringEnd(t, p + 4);
  }

  /** An escape at a place that the first pass reaches. */
  lemma OverEscape(t: seq<Byte>, start: nat, p: nat)
    requires Reached(t, start, p) && p + 1 < |t| && t[p] == BACKSLASH
    ensures Introduces(t, start, p) && Reached(t, start, p + 2) && StringEnd(t, p) == StringEnd(t, p + 2)
    ensures t[p + 1] == LOWER_U && FourHex(t, p + 2) ==>
              Reached(t, start, p + 6) && StringEnd(t, p) == StringEnd(t, p + 6)
  {
    assert Introduces(t, start, p) && !Introduces(t, start, p + 1);
    if FourHex(t, p + 2) {
      OverHex(t, start, p + 2);
    }
  }

  // ---------------------------------------------------------------- chars of the grammar are clean

  lemma CleanOne(t: seq<Byte>, start: nat, p: nat, end: nat)
    requires start <= p < end < |t| && t[p] >= 0x20 && Clean(t, start, p + 1, end)
    requires Introduces(t, start, p) && t[p + 1] == LOWER_U ==> p + 6 <= end && FourHex(t, p + 2)
    ensures Clean(t, start, p, end)
  {
  }

  /** An escape of the grammar, with everything after it clean. */
  lemma CleanEscape(t: seq<Byte>, start: nat, p: nat, end: nat, next: nat)
    requires Reached(t, start, p) && p < next <= end < |t| && t[p] == BACKSLASH
    requires (next == p + 2 && t[p + 1] != LOWER_U && EscapeMeans(t[p + 1]).Some?)
          || (next == p + 6 && t[p + 1] == LOWER_U && FourHex(t, p + 2))
    requires Clean(t, start, next, end)
    ensures Clean(t, start, p, end)
  {
    OverEscape(t, start, p);
    if next == p + 6 {
      OverHex(t, start, p + 2);
      CleanOne(t, start, p + 5, end);
      CleanOne(t, start, p + 4, end);
      CleanOne(t, start, p + 3, end);
      CleanOne(t, start, p + 2, end);
    }
    assert !Introduces(t, start, p + 1);
    CleanOne(t, start, p + 1, end);
    CleanOne(t, start, p, end);
  }

  lemma {:induction false} CharsAreClean(t: seq<Byte>, start: nat, p: nat, end: nat)
    requires Reached(t, start, p) && end < |t| && Chars(t, p, end)
    ensures Clean(t, start, p, end)
    decreases end - p
  {
    if p < end {
      if t[p] != BACKSLASH {
        CharsAreClean(t, start, p + 1, end);
        CleanOne(t, start, p, end);
      } else {
        OverEscape(t, start, p);
        var next := if t[p + 1] == LOWER_U then p + 6 else p + 2;
        CharsAreClean(t, start, next, end);
        CleanEscape(t, start, p, end, next);
      }
    }
  }

  // ---------------------------------------------------------------- chars of the grammar are read

  /** Of the chars of the grammar the parser rejects unpaired surrogates, and gives the others their meaning. */
  lemma {:induction false} CharsAreRead(t: seq<Byte>, start: nat, p: nat, end: nat)
    requires Reached(t, start, p) && end < |t| && t[end] == QUOTE && Chars(t, p, end)
    ensures StringEnd(t, p) == Some(end)
    ensures Decode(t, p, end).Decoded? <==> Paired(t, p, end)
    ensures Paired(t, p, end) ==> Decode(t, p, end) == Decoded(CharsMean(t, p, end))
    decreases end - p
  {
    if p < end {
      if t[p] != BACKSLASH {
        CharsAreRead(t, start, p + 1, end);
      } else {
        OverEscape(t, start, p);
        if t[p + 1] == LOWER_U {
          UnicodeIsRead(t, start, p, end);
        } else {
          CharsAreRead(t, start, p + 2, end);
          assert Decode(t, p, end) == DecodeEscape(t, p, end);
        }
      }
    }
  }

  lemma Utf16Outcome(t: seq<Byte>, p: nat, end: nat)
    requires p + 6 <= end < |t|
    ensures var l, code := Utf16(t, p, end), Hex4(t, p + 2);
            if 0xDC00 <= code <= 0xDFFF then l.BadLiteral?
            else if 0xD800 <= code <= 0xDBFF then
              if LowFollows(t, p, end) then l.Literal? && l.length == 12 else l.BadLiteral?
            else l.Literal? && l.length == 6
  {
  }

  /** Whether a literal is decoded depends on what follows it in the same way as whether it is paired. */
  lemma UnicodeStep(t: seq<Byte>, p: nat, end: nat, code: nat)
    requires p + 6 <= end < |t| && t[p] == BACKSLASH && t[p + 1] == LOWER_U && code == Hex4(t, p + 2)
    requires !(0xD800 <= code <= 0xDFFF) ==> (Decode(t, p + 6, end).Decoded? <==> Paired(t, p + 6, end))
    requires LowFollows(t, p, end) ==> (Decode(t, p + 12, end).Decoded? <==> Paired(t, p + 12, end))
    ensures Decode(t, p, end).Decoded? <==> Paired(t, p, end)
  {
    Utf16Outcome(t, p, end);
    assert Decode(t, p, end) == DecodeEscape(t, p, end);
  }

  lemma {:induction false} UnicodeIsRead(t: seq<Byte>, start: nat, p: nat, end: nat)
    requires Reached(t, start, p) && p < end < |t| && t[end] == QUOTE && Chars(t, p, end)
    requires t[p] == BACKSLASH && t[p + 1] == LOWER_U
    ensures StringEnd(t, p) == Some(end)
    ensures Decode(t, p, end).Decoded? <==> Paired(t, p, end)
    ensures Paired(t, p, end) ==> Decode(t, p, end) == Decoded(CharsMean(t, p, end))
    decreases end - p, 0
  {
    OverEscape(t, start, p);
    CharsAreRead(t, start, p + 6, end);
    if LowFollows(t, p, end) {
      OverEscape(t, start, p + 6);
      CharsAreRead(t, start, p + 12, end);
    }
    UnicodeStep(t, p, end, Hex4(t, p + 2));
    if Paired(t, p, end) {
      UnicodeMeans(t, p, end, Hex4(t, p + 2));
    }
  }

  /** The code point of a literal, or of a pair of them, in front of what the rest means. */
  lemma UnicodeMeans(t: seq<Byte>, p: nat, end: nat, code: nat)
    requires p < end < |t| && Chars(t, p, end) && Paired(t, p, end)
    requires t[p] == BACKSLASH && t[p + 1] == LOWER_U && code == Hex4(t, p + 2)
    requires !(0xD800 <= code <= 0xDFFF) ==>
               Paired(t, p + 6, end) && Chars(t, p + 6, end) && Decode(t, p + 6, end) == Decoded(CharsMean(t, p + 6, end))
    requires 0xD800 <= code <= 0xDFFF ==>
               && LowFollows(t, p, end) && Paired(t, p + 12, end) && Chars(t, p + 12, end)
               && Decode(t, p + 12, end) == Decoded(CharsMean(t, p + 12, end))
    ensures Decode(t, p, end) == Decoded(CharsMean(t, p, end))
  {
    assert Decode(t, p, end) == DecodeEscape(t, p, end);
  }

  // ---------------------------------------------------------------- clean contents that are read are chars

  lemma {:induction false} CleanIsChars(t: seq<Byte>, start: nat, p: nat, end: nat)
    requires Reached(t, start, p) && StringEnd(t, p) == Some(end) && Clean(t, start, p, end)
    requires Decode(t, p, end).Decoded?
    ensures Chars(t, p, end)
    decreases end - p
  {
    if p < end {
      if t[p] != BACKSLASH {
        CleanIsChars(t, start, p + 1, end);
      } else {
        OverEscape(t, start, p);
        assert Decode(t, p, end) == DecodeEscape(t, p, end);
        if t[p + 1] == LOWER_U {
          assert p + 6 <= end && FourHex(t, p + 2);
          CleanUnicodeIsChars(t, start, p, end);
        } else {
          CleanIsChars(t, start, p + 2, end);
        }
      }
    }
  }

  lemma {:induction false} CleanUnicodeIsChars(t: seq<Byte>, start: nat, p: nat, end: nat)
    requires Reached(t, start, p) && StringEnd(t, p) == Some(end) && Clean(t, start, p, end)
    requires p + 6 <= end && t[p] == BACKSLASH && t[p + 1] == LOWER_U && FourHex(t, p + 2)
    requires Decode(t, p, end).Decoded?
    ensures Chars(t, p, end)
    decreases end - p, 0
  {
    OverEscape(t, start, p);
    Utf16Outcome(t, p, end);
    assert Decode(t, p, end) == DecodeEscape(t, p, end);
    if Utf16(t, p, end).length == 6 {
      CleanIsChars(t, start, p + 6, end);
    } else {
      OverEscape(t, start, p + 6);
      assert Introduces(t, start, p + 6);
      CleanIsChars(t, start, p + 12, end);
    }
  }

  // ---------------------------------------------------------------- exactly which literals are accepted

  /**
    Accepted contents are in the grammar if and only if they hold no control byte and four digits follow
    every \u at which the first pass starts an escape.
   */
  lemma AcceptedIsLegalIff(t: seq<Byte>, start: nat, end: nat)
    requires start <= |t| && StringEnd(t, start) == Some(end) && Decode(t, start, end).Decoded?
    ensures Chars(t, start, end) <==> Clean(t, start, start, end)
  {
    if Clean(t, start, start, end) {
      CleanIsChars(t, start, start, end);
    }
    if Chars(t, start, end) {
      CharsAreClean(t, start, start, end);
    }
  }

  /**
    A literal of the grammar is accepted, up to its closing quote, if and only if its surrogates are paired,
    and then its value is what it means, up to the first zero byte.
   */
  lemma LegalIsAcceptedIff(t: seq<Byte>, p: nat, end: nat)
    requires Terminated(t) && p < end < |t| && t[p] == QUOTE && t[end] == QUOTE && Chars(t, p + 1, end)
    ensures ParseString(t, p).Parsed? <==> Paired(t, p + 1, end)
    ensures Paired(t, p + 1, end) ==> ParseString(t, p) == Parsed(Cut(CharsMean(t, p + 1, end)), end + 1)
  {
    CharsAreRead(t, p + 1, p + 1, end);
  }

  /** So the literals that are both accepted and clean are those of the grammar with paired surrogates. */
  lemma AcceptanceIsExact(t: seq<Byte>, p: nat, end: nat)
    requires Terminated(t) && p < end < |t| && t[p] == QUOTE
    ensures ParseString(t, p).Parsed? && ParseString(t, p).pos == end + 1 && Clean(t, p + 1, p + 1, end)
            <==> t[end] == QUOTE && Chars(t, p + 1, end) && Paired(t, p + 1, end)
  {
    if ParseString(t, p).Parsed? && ParseString(t, p).pos == end + 1 && Clean(t, p + 1, p + 1, end) {
      assert StringEnd(t, p + 1) == Some(end);
      AcceptedIsLegalIff(t, p + 1, end);
      LegalIsAcceptedIff(t, p, end);
    }
    if t[end] == QUOTE && Chars(t, p + 1, end) && Paired(t, p + 1, end) {
      LegalIsAcceptedIff(t, p, end);
      CharsAreClean(t, p + 1, p + 1, end);
    }
  }

  // ---------------------------------------------------------------- illegal literals that are accepted

  /** A raw newline inside a literal. */
  lemma ControlByteIsAccepted()
    ensures var t: seq<Byte> := [QUOTE, NEWLINE, QUOTE, 0];
            ParseString(t, 0) == Parsed([NEWLINE], 3) && !Chars(t, 1, 2)
  {
    var t: seq<Byte> := [QUOTE, NEWLINE, QUOTE, 0];
    assert StringEnd(t, 2) == Some(2);
    assert Decode(t, 2, 2) == Decoded([]);
    assert Decode(t, 1, 2) == Decoded([NEWLINE]);
    assert Cut([NEWLINE]) == [NEWLINE] + Cut([]);
  }

  /** The literal \uZZZZ, which is read as the code point 0 and so as the empty string. */
  lemma BadDigitsAreAccepted()
    ensures var t: seq<Byte> := [QUOTE, BACKSLASH, LOWER_U, 0x5A, 0x5A, 0x5A, 0x5A, QUOTE, 0];
            ParseString(t, 0) == Parsed([], 8) && !Chars(t, 1, 7)
  {
    var t: seq<Byte> := [QUOTE, BACKSLASH, LOWER_U, 0x5A, 0x5A, 0x5A, 0x5A, QUOTE, 0];
    assert StringEnd(t, 7) == Some(7);
    assert StringEnd(t, 5) == StringEnd(t, 6) == StringEnd(t, 7);
    assert StringEnd(t, 1) == StringEnd(t, 3) == StringEnd(t, 4) == StringEnd(t, 5);
    assert Utf16(t, 1, 7) == Literal(0, 6);
    assert Decode(t, 7, 7) == Decoded([]);
    assert Decode(t, 1, 7) == DecodeEscape(t, 1, 7) == Decoded([0]);
  }

  /** The literal \u000\\, whose closing quote the second pass takes for the rest of an escape. */
  lemma ClosingQuoteIsSwallowed()
    ensures var t: seq<Byte> := [QUOTE, BACKSLASH, LOWER_U, 0x30, 0x30, 0x30, BACKSLASH, BACKSLASH, QUOTE, 0];
            && StringEnd(t, 1) == Some(8) && Decode(t, 1, 8) == Decoded([0, QUOTE])
            && ParseString(t, 0) == Parsed([], 9) && !Chars(t, 1, 8)
  {
    var t: seq<Byte> := [QUOTE, BACKSLASH, LOWER_U, 0x30, 0x30, 0x30, BACKSLASH, BACKSLASH, QUOTE, 0];
    assert StringEnd(t, 6) == StringEnd(t, 8) == Some(8);
    assert StringEnd(t, 1) == StringEnd(t, 3) == StringEnd(t, 4) == StringEnd(t, 5) == StringEnd(t, 6);
    assert Utf16(t, 1, 8) == Literal(0, 6);
    assert Decode(t, 9, 8) == Decoded([]);
    assert Decode(t, 7, 8) == DecodeEscape(t, 7, 8) == Decoded([QUOTE]);
    assert Decode(t, 1, 8) == DecodeEscape(t, 1, 8);
  }

  /** The legal literal \uD800, which is rejected. */
  lemma LoneSurrogateIsRejected()
    ensures var t: seq<Byte> := [QUOTE, BACKSLASH, LOWER_U, 0x44, 0x38, 0x30, 0x30, QUOTE, 0];
            Chars(t, 1, 7) && ParseString(t, 0) == Failed(1)
  {
    var t: seq<Byte> := [QUOTE, BACKSLASH, LOWER_U, 0x44, 0x38, 0x30, 0x30, QUOTE, 0];
    assert Chars(t, 7, 7) && FourHex(t, 3);
    CharsAreRead(t, 1, 1, 7);
    assert Hex4(t, 3) == 0xD800;
    assert Decode(t, 1, 7) == DecodeEscape(t, 1, 7) == BadEscape(1);
  }

  /** The value is what was decoded before the first zero byte. */
  lemma {:induction false} ValueEndsAtZero(bytes: seq<Byte>)
    ensures Cut(bytes) <= bytes && 0 !in Cut(bytes)
    ensures |Cut(bytes)| == |bytes| || bytes[|Cut(bytes)|] == 0
  {
    if bytes != [] && bytes[0] != 0 {
      ValueEndsAtZero(bytes[1..]);
      assert Cut(bytes)[1..] == Cut(bytes[1..]);
    }
  }

  /** The value is a C string: it is all that was decoded if and only if no zero byte was. */
  lemma {:induction false} ValueIsWholeIff(bytes: seq<Byte>)
    ensures Cut(bytes) == bytes <==> 0 !in bytes
  {
    if bytes != [] && bytes[0] != 0 {
      ValueIsWholeIff(bytes[1..]);
      assert bytes == [bytes[0]] + bytes[1..];
      assert Cut(bytes)[1..] == Cut(bytes[1..]);
    }
  }

  // ---------------------------------------------------------------- every scalar value has a literal that is read

  function Hex4Text(n: nat): (s: seq<Byte>)
    requires n < 0x10000
    ensures |s| == 4
  {
    [HexDigit(n / 0x1000), HexDigit(n / 0x100 % 16), HexDigit(n / 0x10 % 16), HexDigit(n % 16)]
  }

  predicate Scalar(c: nat) {
    c <= 0x10FFFF && !(0xD800 <= c <= 0xDFFF)
  }

  /** One literal, or a surrogate pair for a character outside the basic plane (section 2.1 of RFC 2781). */
  function UnicodeLiteral(c: nat): (s: seq<Byte>)
    requires Scalar(c)
    ensures |s| == if c < 0x10000 then 6 else 12
  {
    if c < 0x10000 then [BACKSLASH, LOWER_U] + Hex4Text(c)
    else [BACKSLASH, LOWER_U] + Hex4Text(0xD800 + (c - 0x10000) / 0x400)
         + ([BACKSLASH, LOWER_U] + Hex4Text(0xDC00 + (c - 0x10000) % 0x400))
  }

  lemma HexDigitIsRead(n: nat)
    requires n < 16
    ensures HexValue(HexDigit(n)) == Some(n)
  {
  }

  lemma Hex4IsRead(t: seq<Byte>, p: nat, n: nat)
    requires n < 0x10000 && At(t, p, [BACKSLASH, LOWER_U] + Hex4Text(n))
    ensures t[p] == BACKSLASH && t[p + 1] == LOWER_U && Hex4(t, p + 2) == n
  {
    var s := [BACKSLASH, LOWER_U] + Hex4Text(n);
    AtByte(t, p, s, 0);
    AtByte(t, p, s, 1);
    AtByte(t, p, s, 2);
    AtByte(t, p, s, 3);
    AtByte(t, p, s, 4);
    AtByte(t, p, s, 5);
    FourDigits(n);
    HexDigitIsRead(n / 0x1000);
    HexDigitIsRead(n / 0x100 % 16);
    HexDigitIsRead(n / 0x10 % 16);
    HexDigitIsRead(n % 16);
  }

  lemma FourDigits(n: nat)
    ensures n == n / 0x1000 * 0x1000 + n / 0x100 % 16 * 0x100 + n / 0x10 % 16 * 0x10 + n % 16
  {
    assert n / 0x100 == n / 0x10 / 16;
    assert n / 0x1000 == n / 0x100 / 16;
  }

  /** The literal of every scalar value is read as that value and decoded to its encoding. */
  lemma UnicodeLiteralIsRead(t: seq<Byte>, p: nat, end: nat, c: nat)
    requires Scalar(c) && At(t, p, UnicodeLiteral(c)) && p + |UnicodeLiteral(c)| <= end < |t|
    ensures Utf16(t, p, end) == Literal(c, |UnicodeLiteral(c)|)
    ensures Decode(t, p, end) == Prepend(Utf8(c), Decode(t, p + |UnicodeLiteral(c)|, end))
  {
    if c < 0x10000 {
      Hex4IsRead(t, p, c);
    } else {
      var high, low := 0xD800 + (c - 0x10000) / 0x400, 0xDC00 + (c - 0x10000) % 0x400;
      AtSplit(t, p, [BACKSLASH, LOWER_U] + Hex4Text(high), [BACKSLASH, LOWER_U] + Hex4Text(low));
      Hex4IsRead(t, p, high);
      Hex4IsRead(t, p + 6, low);
    }
    assert Decode(t, p, end) == DecodeEscape(t, p, end);
  }

  // ---------------------------------------------------------------- what the printer writes is legal and means its string

  /** The bytes that have an escape of their own, those that need a \u escape, and those that are written as they are. */
  lemma EscapeByteIs(b: NonZero)
    ensures var s := EscapeByte(b);
            if b in {0x22, 0x5C, 0x08, 0x0C, 0x0A, 0x0D, 0x09} then
              |s| == 2 && s[0] == 0x5C && EscapeMeans(s[1]) == Some(b)
            else if b < 0x20 then
              |s| == 6 && s[..4] == [0x5C, 0x75, 0x30, 0x30] && IsHexDigit(s[4], b / 16) && IsHexDigit(s[5], b % 16)
            else s == [b]
  {
  }

  /** The text between p and end is in the grammar and means s. */
  ghost predicate LegalFor(t: seq<Byte>, p: nat, end: nat, s: seq<Byte>) {
    forall seal: Seal {:trigger Broken(seal)} ::
      end <= |t| && Chars(t, p, end) && Paired(t, p, end) && CharsMean(t, p, end) == s
  }

  lemma EscapedByteMeans(t: seq<Byte>, p: nat, end: nat, b: NonZero, rest: seq<Byte>)
    requires At(t, p, EscapeByte(b)) && p + |EscapeByte(b)| <= end <= |t|
    requires LegalFor(t, p + |EscapeByte(b)|, end, rest)
    ensures LegalFor(t, p, end, [b] + rest)
  {
    assert Broken(Seal);
    var s := EscapeByte(b);
    EscapeByteIs(b);
    AtByte(t, p, s, 0);
    if |s| == 2 {
      AtByte(t, p, s, 1);
    } else if |s| == 6 {
      UnicodeByteMeans(t, p, end, b);
    }
  }

  lemma UnicodeByteMeans(t: seq<Byte>, p: nat, end: nat, b: NonZero)
    requires b < 0x20 && |EscapeByte(b)| == 6 && At(t, p, EscapeByte(b)) && p + 6 <= end <= |t|
    requires Chars(t, p + 6, end) && Paired(t, p + 6, end)
    ensures Chars(t, p, end) && Paired(t, p, end) && CharsMean(t, p, end) == [b] + CharsMean(t, p + 6, end)
  {
    var s := EscapeByte(b);
    forall i | 0 <= i < 6
      ensures t[p + i] == s[i]
    {
      AtByte(t, p, s, i);
    }
    HexDigits(b);
    assert t[p] == BACKSLASH && t[p + 1] == LOWER_U && t[p + 2] == 0x30 && t[p + 3] == 0x30;
    assert t[p + 4] == s[4] && t[p + 5] == s[5];
    assert FourHex(t, p + 2) && Hex4(t, p + 2) == b && Utf8(b) == [b];
  }

  lemma {:induction false} EscapeIsLegal(t: seq<Byte>, p: nat, s: CString)
    requires At(t, p, Escape(s))
    ensures LegalFor(t, p, p + |Escape(s)|, s)
    decreases |s|
  {
    if s != [] {
      var e, rest := EscapeByte(s[0]), Escape(s[1..]);
      AtSplit(t, p, e, rest);
      EscapeIsLegal(t, p + |e|, s[1..]);
      EscapedByteMeans(t, p, p + |Escape(s)|, s[0], s[1..]);
      assert s == [s[0]] + s[1..];
    }
  }

  lemma LiteralParts(t: seq<Byte>, p: nat, e: seq<Byte>)
    requires At(t, p, [QUOTE] + e + [QUOTE])
    ensures var end := p + 1 + |e|; end < |t| && t[p] == QUOTE && t[end] == QUOTE && At(t, p + 1, e)
  {
    AtSplit(t, p, [QUOTE] + e, [QUOTE]);
    AtSplit(t, p, [QUOTE], e);
    AtByte(t, p, [QUOTE], 0);
    AtByte(t, p + 1 + |e|, [QUOTE], 0);
  }

  /** A printed literal is one of section 7 of RFC 8259, and it means the string that was printed. */
  lemma PrintedLiteralMeans(t: seq<Byte>, p: nat, s: CString)
    requires At(t, p, Quoted(s))
    ensures var end := p + |Quoted(s)| - 1;
            && p < end < |t| && t[p] == QUOTE && t[end] == QUOTE
            && Chars(t, p + 1, end) && Paired(t, p + 1, end) && CharsMean(t, p + 1, end) == s
  {
    LiteralParts(t, p, Escape(s));
    EscapeIsLegal(t, p + 1, s);
    assert Broken(Seal);
  }
}
