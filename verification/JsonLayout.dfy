/**
  The layout of a printed text: which blanks formatting adds, and where. Both statements read the text byte
  by byte and know nothing of the tree it was printed for.
 */
module JsonLayout {
  import opened Options
  import opened JsonText
  import opened JsonStrings
  import opened JsonValues

  // ---------------------------------------------------------------- literals and blanks

  /** Where a byte stands: outside string literals, inside one, or after a backslash inside one. */
  datatype Mode = Outside | Inside | Escaped

  function Next(m: Mode, b: Byte): Mode {
    match m
    case Outside => if b == 0x22 then Inside else Outside
    case Inside => if b == 0x5C then Escaped else if b == 0x22 then Outside else Inside
    case Escaped => Inside
  }

  function ModeAfter(t: seq<Byte>, m: Mode): Mode {
    if t == [] then m else ModeAfter(t[1..], Next(m, t[0]))
  }

  /** The text without the bytes up to a space that stand outside string literals. */
  function Squeezed(t: seq<Byte>, m: Mode): (s: seq<Byte>)
    ensures |s| <= |t|
  {
    if t == [] then []
    else (if m.Outside? && t[0] <= 0x20 then [] else [t[0]]) + Squeezed(t[1..], Next(m, t[0]))
  }

  lemma {:induction false} SqueezedConcat(a: seq<Byte>, b: seq<Byte>, m: Mode)
    ensures ModeAfter(a + b, m) == ModeAfter(b, ModeAfter(a, m))
    ensures Squeezed(a + b, m) == Squeezed(a, m) + Squeezed(b, ModeAfter(a, m))
    decreases |a|
  {
    if a == [] {
      assert a + b == b;
    } else {
      var m' := Next(m, a[0]);
      SqueezedConcat(a[1..], b, m');
      assert (a + b)[1..] == a[1..] + b && (a + b)[0] == a[0];
      Nest(if m.Outside? && a[0] <= 0x20 then [] else [a[0]], Squeezed(a[1..], m'), Squeezed(b, ModeAfter(a[1..], m')));
    }
  }

  /** A text that nothing can be squeezed out of has no blank outside its literals. */
  lemma {:induction false} NoBlankOutside(t: seq<Byte>, m: Mode, i: nat)
    requires |Squeezed(t, m)| == |t| && i < |t| && ModeAfter(t[..i], m).Outside?
    ensures t[i] > 0x20
    decreases i
  {
    if i > 0 {
      assert t[..i][1..] == t[1..][..i - 1] && t[..i][0] == t[0];
      NoBlankOutside(t[1..], Next(m, t[0]), i - 1);
    }
  }

  // ---------------------------------------------------------------- squeezing a printed text

  /** A piece that starts and ends outside literals, and what is left of it. */
  ghost predicate Piece(t: seq<Byte>, s: seq<Byte>) {
    ModeAfter(t, Outside) == Outside && Squeezed(t, Outside) == s
  }

  lemma PieceConcat(a: seq<Byte>, s: seq<Byte>, b: seq<Byte>, r: seq<Byte>)
    requires Piece(a, s) && Piece(b, r)
    ensures Piece(a + b, s + r)
  {
    SqueezedConcat(a, b, Outside);
  }

  /** Bytes above a space, none of them a quote, or bytes up to a space. */
  lemma {:induction false} PlainPiece(t: seq<Byte>)
    ensures (forall i :: 0 <= i < |t| ==> t[i] > 0x20 && t[i] != 0x22) ==> Piece(t, t)
    ensures (forall i :: 0 <= i < |t| ==> t[i] <= 0x20) ==> Piece(t, [])
  {
    if t != [] {
      PlainPiece(t[1..]);
      assert t == [t[0]] + t[1..];
    }
  }

  lemma EscapeByteInside(b: NonZero)
    ensures var e := EscapeByte(b); ModeAfter(e, Inside) == Inside && Squeezed(e, Inside) == e
  {
    var e := EscapeByte(b);
    if |e| == 1 {
      assert e[1..] == [];
    } else if |e| == 2 {
      assert e[1..] == [e[1]] && e[1..][1..] == [];
      assert ModeAfter(e[1..], Escaped) == Inside && Squeezed(e[1..], Escaped) == [e[1]];
    } else {
      HexDigits(b);
      InsideBytes(e[2..]);
      assert e == [e[0], e[1]] + e[2..];
      SqueezedConcat([e[0], e[1]], e[2..], Inside);
      assert [e[0], e[1]][1..] == [e[1]] && [e[1]][1..] == [];
      assert ModeAfter([e[1]], Escaped) == Inside && Squeezed([e[1]], Escaped) == [e[1]];
    }
  }

  lemma {:induction false} InsideBytes(t: seq<Byte>)
    requires forall i :: 0 <= i < |t| ==> t[i] != 0x22 && t[i] != 0x5C
    ensures ModeAfter(t, Inside) == Inside && Squeezed(t, Inside) == t
  {
    if t != [] {
      InsideBytes(t[1..]);
    }
  }

  lemma {:induction false} EscapeInside(s: CString)
    ensures ModeAfter(Escape(s), Inside) == Inside && Squeezed(Escape(s), Inside) == Escape(s)
  {
    if s != [] {
      EscapeByteInside(s[0]);
      EscapeInside(s[1..]);
      SqueezedConcat(EscapeByte(s[0]), Escape(s[1..]), Inside);
    }
  }

  lemma QuotedPiece(s: CString)
    ensures Piece(Quoted(s), Quoted(s))
  {
    var e := Escape(s);
    EscapeInside(s);
    assert [QUOTE][1..] == [];
    SqueezedConcat([QUOTE], e, Outside);
    SqueezedConcat([QUOTE] + e, [QUOTE], Outside);
    assert ModeAfter([QUOTE], Outside) == Inside && ModeAfter([QUOTE], Inside) == Outside;
    assert Squeezed([QUOTE], Outside) == [QUOTE] == Squeezed([QUOTE], Inside);
  }

  lemma NumberPiece(env: Numbers, n: nat)
    requires NumbersOk(env)
    ensures Piece(NumberPrint(env, n), NumberPrint(env, n))
  {
    var t := NumberPrint(env, n);
    assert ShowOk(env, n);
    assert forall i :: 0 <= i < |t| ==> t[i] > 0x20 && t[i] != 0x22;
    PlainPiece(t);
  }

  lemma {:induction false} TabsPiece(n: nat)
    ensures Piece(Tabs(n), [])
  {
    if n > 0 {
      TabsPiece(n - 1);
      PlainPiece([TAB]);
      PieceConcat(Tabs(n - 1), [], [TAB], []);
    } else {
      PlainPiece([]);
    }
  }

  lemma GapPiece(members: Members, fmt: bool, depth: nat)
    requires depth > 0
    ensures Piece(Gap(members, fmt, depth), [])
  {
    if fmt {
      var n := if members.End? then depth - 1 else depth;
      TabsPiece(n);
      PlainPiece([NEWLINE]);
      PieceConcat([NEWLINE], [], Tabs(n), []);
    } else {
      PlainPiece([]);
    }
  }

  lemma SeparatorPieces(fmt: bool, rest: Items, members: Members)
    ensures Piece(Colon(fmt), [COLON])
    ensures Piece(ItemEnd(rest, fmt), if rest.Nil? then [] else [COMMA])
    ensures Piece(MemberEnd(members), MemberEnd(members))
    ensures Piece([OPEN_BRACKET], [OPEN_BRACKET]) && Piece([CLOSE_BRACKET], [CLOSE_BRACKET])
    ensures Piece([OPEN_BRACE], [OPEN_BRACE]) && Piece([CLOSE_BRACE], [CLOSE_BRACE])
  {
    PlainPiece([]);
    PlainPiece([COLON]);
    PlainPiece([TAB]);
    PlainPiece([COMMA]);
    PlainPiece([SPACE]);
    PlainPiece([OPEN_BRACKET]);
    PlainPiece([CLOSE_BRACKET]);
    PlainPiece([OPEN_BRACE]);
    PlainPiece([CLOSE_BRACE]);
    PieceConcat([COLON], [COLON], [TAB], []);
    PieceConcat([COMMA], [COMMA], [SPACE], []);
    assert [COLON] + [TAB] == [COLON, TAB] && [COMMA] + [SPACE] == [COMMA, SPACE];
  }

  /** Squeezing what is printed for a tree, formatted or not and at any depth, gives the compact text. */
  lemma {:induction false} PrintSqueezes(env: Numbers, v: Value, fmt: bool, depth: nat, compact: nat)
    requires NumbersOk(env)
    ensures Piece(Print(env, v, fmt, depth), Print(env, v, false, compact))
    decreases v
  {
    match v
    case Null => PlainPiece(NULL_TEXT);
    case False => PlainPiece(FALSE_TEXT);
    case True => PlainPiece(TRUE_TEXT);
    case Number(n) => NumberPiece(env, n);
    case String(s) => QuotedPiece(s);
    case Array(items) =>
      SeparatorPieces(fmt, items, End);
      ItemsSqueeze(env, items, fmt, depth + 1, compact + 1);
      PieceConcat([OPEN_BRACKET], [OPEN_BRACKET], PrintItems(env, items, fmt, depth + 1),
                  PrintItems(env, items, false, compact + 1));
    case Object(members) => ObjectSqueezes(env, members, fmt, depth, compact);
  }

  lemma {:induction false} ItemsSqueeze(env: Numbers, items: Items, fmt: bool, depth: nat, compact: nat)
    requires NumbersOk(env)
    ensures Piece(PrintItems(env, items, fmt, depth), PrintItems(env, items, false, compact))
    decreases items, 0
  {
    if items.Nil? {
      SeparatorPieces(fmt, items, End);
    } else {
      var v, rest := items.head, items.tail;
      SeparatorPieces(fmt, rest, End);
      PrintSqueezes(env, v, fmt, depth, compact);
      ItemsSqueeze(env, rest, fmt, depth, compact);
      PieceConcat(ItemEnd(rest, fmt), ItemEnd(rest, false), PrintItems(env, rest, fmt, depth),
                  PrintItems(env, rest, false, compact));
      PieceConcat(Print(env, v, fmt, depth), Print(env, v, false, compact),
                  ItemEnd(rest, fmt) + PrintItems(env, rest, fmt, depth),
                  ItemEnd(rest, false) + PrintItems(env, rest, false, compact));
    }
  }

  lemma {:induction false} ObjectSqueezes(env: Numbers, members: Members, fmt: bool, depth: nat, compact: nat)
    requires NumbersOk(env)
    ensures Piece(PrintObject(env, members, fmt, depth), PrintObject(env, members, false, compact))
    decreases members, 2
  {
    SeparatorPieces(fmt, Nil, members);
    GapPiece(members, fmt, depth + 1);
    MembersSqueeze(env, members, fmt, depth + 1, compact + 1);
    var s, r := PrintMembers(env, members, fmt, depth + 1), PrintMembers(env, members, false, compact + 1);
    PieceConcat(Gap(members, fmt, depth + 1), [], s, r);
    PieceConcat([OPEN_BRACE], [OPEN_BRACE], Gap(members, fmt, depth + 1) + s, [] + r);
  }

  lemma {:induction false} MembersSqueeze(env: Numbers, members: Members, fmt: bool, depth: nat, compact: nat)
    requires NumbersOk(env) && depth > 0 && compact > 0
    ensures Piece(PrintMembers(env, members, fmt, depth), PrintMembers(env, members, false, compact))
    decreases members, 1
  {
    SeparatorPieces(fmt, Nil, members);
    if members.Member? {
      QuotedPiece(members.key);
      FromValueSqueezes(env, members, fmt, depth, compact);
      var s, r := PrintFromValue(env, members, fmt, depth), PrintFromValue(env, members, false, compact);
      PieceConcat(Colon(fmt), [COLON], s, r);
      PieceConcat(Quoted(members.key), Quoted(members.key), Colon(fmt) + s, [COLON] + r);
    }
  }

  lemma {:induction false} FromValueSqueezes(env: Numbers, members: Members, fmt: bool, depth: nat, compact: nat)
    requires NumbersOk(env) && depth > 0 && compact > 0 && members.Member?
    ensures Piece(PrintFromValue(env, members, fmt, depth), PrintFromValue(env, members, false, compact))
    decreases members, 0
  {
    var v, rest := members.value, members.rest;
    SeparatorPieces(fmt, Nil, rest);
    GapPiece(rest, fmt, depth);
    PrintSqueezes(env, v, fmt, depth, compact);
    MembersSqueeze(env, rest, fmt, depth, compact);
    var s, r := PrintMembers(env, rest, fmt, depth), PrintMembers(env, rest, false, compact);
    PieceConcat(Gap(rest, fmt, depth), [], s, r);
    PieceConcat(MemberEnd(rest), MemberEnd(rest), Gap(rest, fmt, depth) + s, [] + r);
    PieceConcat(Print(env, v, fmt, depth), Print(env, v, false, compact),
                MemberEnd(rest) + (Gap(rest, fmt, depth) + s), MemberEnd(rest) + ([] + r));
  }

  /**
    An unformatted text has no blank outside its string literals, and it is the formatted text without the
    blanks outside literals.
   */
  lemma UnformattedIsCompact(env: Numbers, v: Value)
    requires NumbersOk(env)
    ensures Squeezed(Print(env, v, true, 0), Outside) == Print(env, v, false, 0)
    ensures var t := Print(env, v, false, 0);
            forall i :: 0 <= i < |t| && ModeAfter(t[..i], Outside).Outside? ==> t[i] > 0x20
  {
    PrintSqueezes(env, v, true, 0, 0);
    PrintSqueezes(env, v, false, 0, 0);
    var t := Print(env, v, false, 0);
    forall i | 0 <= i < |t| && ModeAfter(t[..i], Outside).Outside?
      ensures t[i] > 0x20
    {
      NoBlankOutside(t, Outside, i);
    }
  }

  // ---------------------------------------------------------------- where formatting puts its blanks

  /** The start of a line at the given depth. */
  function Line(depth: nat): seq<Byte> {
    [0x0A] + seq(depth, _ => 0x09)
  }

  /**
    The formatted text for a compact one. `open` tells of every bracket that is open whether it is a brace.
    A comma in an array is followed by a space, a colon by a tab. Every member and every closing brace has a
    line of its own that starts with as many tabs as brackets are open around it.
   */
  function Indented(t: seq<Byte>, open: seq<bool>, m: Mode): seq<Byte>
    decreases |t|
  {
    if t == [] then []
    else if !m.Outside? || t[0] == 0x22 then [t[0]] + Indented(t[1..], open, Next(m, t[0]))
    else
      match t[0]
      case 0x5B => [0x5B] + Indented(t[1..], open + [false], Outside)
      case 0x5D => [0x5D] + Indented(t[1..], Closed(open), Outside)
      case 0x7B =>
        if |t| > 1 && t[1] == 0x7D then [0x7B] + Line(|open|) + [0x7D] + Indented(t[2..], open, Outside)
        else [0x7B] + Line(|open| + 1) + Indented(t[1..], open + [true], Outside)
      case 0x7D => Line(|Closed(open)|) + [0x7D] + Indented(t[1..], Closed(open), Outside)
      case 0x2C =>
        (if open != [] && open[|open| - 1] then [0x2C] + Line(|open|) else [0x2C, 0x20])
        + Indented(t[1..], open, Outside)
      case 0x3A => [0x3A, 0x09] + Indented(t[1..], open, Outside)
      case _ => [t[0]] + Indented(t[1..], open, Outside)
  }

  function Closed(open: seq<bool>): seq<bool> {
    if open == [] then [] else open[..|open| - 1]
  }

  predicate Structural(b: Byte) {
    b in {0x22, 0x5B, 0x5D, 0x7B, 0x7D, 0x2C, 0x3A}
  }

  lemma {:induction false} PlainStays(t: seq<Byte>, rest: seq<Byte>, open: seq<bool>)
    requires forall i :: 0 <= i < |t| ==> !Structural(t[i])
    ensures Indented(t + rest, open, Outside) == t + Indented(rest, open, Outside)
  {
    if t == [] {
      assert t + rest == rest;
    } else {
      PlainStays(t[1..], rest, open);
      assert (t + rest)[1..] == t[1..] + rest;
      assert [t[0]] + (t[1..] + Indented(rest, open, Outside)) == t + Indented(rest, open, Outside);
    }
  }

  lemma Nest(a: seq<Byte>, b: seq<Byte>, c: seq<Byte>)
    ensures a + b + c == a + (b + c)
  {
  }

  lemma Nest4(a: seq<Byte>, b: seq<Byte>, c: seq<Byte>, d: seq<Byte>)
    ensures a + b + c + d == a + (b + (c + d)) && a + (b + c) + d == a + (b + (c + d))
  {
    Nest(a, b, c);
    Nest(a, b + c, d);
    Nest(b, c, d);
  }

  /** The first byte is written, and the rest is indented in turn. */
  lemma Behind(b: Byte, t: seq<Byte>)
    ensures ([b] + t)[0] == b && ([b] + t)[1..] == t
  {
  }

  /** Inside a literal every byte stays. */
  lemma {:induction false} InsideStays(t: seq<Byte>, rest: seq<Byte>, open: seq<bool>)
    requires forall i :: 0 <= i < |t| ==> t[i] != 0x22 && t[i] != 0x5C
    ensures Indented(t + rest, open, Inside) == t + Indented(rest, open, Inside)
  {
    if t == [] {
      assert t + rest == rest;
    } else {
      InsideStays(t[1..], rest, open);
      assert (t + rest)[1..] == t[1..] + rest;
      assert [t[0]] + (t[1..] + Indented(rest, open, Inside)) == t + Indented(rest, open, Inside);
    }
  }

  lemma PairStays(b: Byte, rest: seq<Byte>, open: seq<bool>)
    ensures Indented([0x5C, b] + rest, open, Inside) == [0x5C, b] + Indented(rest, open, Inside)
  {
    var t := [0x5C, b] + rest;
    assert t[1..] == [b] + rest && t[1..][1..] == rest;
    assert Indented(t[1..], open, Escaped) == [b] + Indented(rest, open, Inside);
  }

  lemma EscapeByteStays(b: NonZero, rest: seq<Byte>, open: seq<bool>)
    ensures Indented(EscapeByte(b) + rest, open, Inside) == EscapeByte(b) + Indented(rest, open, Inside)
  {
    var e := EscapeByte(b);
    if |e| == 1 {
      InsideStays(e, rest, open);
    } else if |e| == 2 {
      PairStays(e[1], rest, open);
      assert e == [0x5C, e[1]];
    } else {
      HexDigits(b);
      PairStays(e[1], e[2..] + rest, open);
      InsideStays(e[2..], rest, open);
      assert e + rest == [0x5C, e[1]] + (e[2..] + rest);
      assert [0x5C, e[1]] + (e[2..] + Indented(rest, open, Inside)) == e + Indented(rest, open, Inside);
    }
  }

  lemma {:induction false} EscapeStays(s: CString, rest: seq<Byte>, open: seq<bool>)
    ensures Indented(Escape(s) + rest, open, Inside) == Escape(s) + Indented(rest, open, Inside)
  {
    if s == [] {
      assert Escape(s) + rest == rest;
    } else {
      var e, r := EscapeByte(s[0]), Escape(s[1..]);
      EscapeByteStays(s[0], r + rest, open);
      EscapeStays(s[1..], rest, open);
      Nest(e, r, rest);
      Nest(e, r, Indented(rest, open, Inside));
    }
  }

  lemma QuotedStays(s: CString, rest: seq<Byte>, open: seq<bool>)
    ensures Indented(Quoted(s) + rest, open, Outside) == Quoted(s) + Indented(rest, open, Outside)
  {
    var e := Escape(s);
    Nest4([QUOTE], e, [QUOTE], rest);
    Nest4([QUOTE], e, [QUOTE], Indented(rest, open, Outside));
    Behind(QUOTE, e + ([QUOTE] + rest));
    Behind(QUOTE, rest);
    EscapeStays(s, [QUOTE] + rest, open);
  }

  lemma {:induction false} TabsAre(n: nat)
    ensures Tabs(n) == seq(n, _ => 0x09)
  {
    if n > 0 {
      TabsAre(n - 1);
    }
  }

  lemma NumberStays(env: Numbers, n: nat, rest: seq<Byte>, open: seq<bool>)
    requires NumbersOk(env)
    ensures Indented(NumberPrint(env, n) + rest, open, Outside) == NumberPrint(env, n) + Indented(rest, open, Outside)
  {
    var t := NumberPrint(env, n);
    assert ShowOk(env, n);
    assert forall i :: 0 <= i < |t| ==> !Structural(t[i]);
    PlainStays(t, rest, open);
  }

  /** Indenting the compact text of a tree gives its formatted text, whatever follows and wherever it stands. */
  lemma {:induction false} PrintIndents(env: Numbers, v: Value, depth: nat, compact: nat, rest: seq<Byte>, open: seq<bool>)
    requires NumbersOk(env) && |open| == depth
    ensures Indented(Print(env, v, false, compact) + rest, open, Outside) ==
            Print(env, v, true, depth) + Indented(rest, open, Outside)
    decreases v
  {
    match v
    case Null => PlainStays(NULL_TEXT, rest, open);
    case False => PlainStays(FALSE_TEXT, rest, open);
    case True => PlainStays(TRUE_TEXT, rest, open);
    case Number(n) => NumberStays(env, n, rest, open);
    case String(s) => QuotedStays(s, rest, open);
    case Array(items) => ArrayIndents(env, items, depth, compact, rest, open);
    case Object(members) => ObjectIndents(env, members, depth, compact, rest, open);
  }

  lemma {:induction false} ArrayIndents(env: Numbers, items: Items, depth: nat, compact: nat, rest: seq<Byte>,
                                        open: seq<bool>)
    requires NumbersOk(env) && |open| == depth
    ensures Indented(PrintArray(env, items, false, compact) + rest, open, Outside) ==
            PrintArray(env, items, true, depth) + Indented(rest, open, Outside)
    decreases items, 1
  {
    var s, r := PrintItems(env, items, false, compact + 1), PrintItems(env, items, true, depth + 1);
    ItemsIndent(env, items, depth + 1, compact + 1, rest, open + [false]);
    Nest([0x5B], s, rest);
    Nest([0x5B], r, Indented(rest, open, Outside));
    Behind(0x5B, s + rest);
    assert Closed(open + [false]) == open;
  }

  /** One byte that opens, closes or separates. */
  lemma ByteIndents(rest: seq<Byte>, open: seq<bool>)
    ensures Indented([0x5D] + rest, open, Outside) == [0x5D] + Indented(rest, Closed(open), Outside)
    ensures Indented([0x7D] + rest, open, Outside) == Line(|Closed(open)|) + [0x7D] + Indented(rest, Closed(open), Outside)
    ensures Indented([0x3A] + rest, open, Outside) == [0x3A, 0x09] + Indented(rest, open, Outside)
    ensures open != [] && open[|open| - 1] ==>
              Indented([0x2C] + rest, open, Outside) == [0x2C] + Line(|open|) + Indented(rest, open, Outside)
    ensures open != [] && !open[|open| - 1] ==>
              Indented([0x2C] + rest, open, Outside) == [0x2C, 0x20] + Indented(rest, open, Outside)
  {
    assert ([0x5D] + rest)[1..] == rest && ([0x7D] + rest)[1..] == rest;
    assert ([0x3A] + rest)[1..] == rest && ([0x2C] + rest)[1..] == rest;
  }

  lemma SeparatorIndents(tail: Items, rest: seq<Byte>, open: seq<bool>)
    requires open != [] && !open[|open| - 1]
    ensures Indented(ItemEnd(tail, false) + rest, open, Outside) == ItemEnd(tail, true) + Indented(rest, open, Outside)
  {
    if tail.Nil? {
      assert [] + rest == rest && [] + Indented(rest, open, Outside) == Indented(rest, open, Outside);
    } else {
      ByteIndents(rest, open);
    }
  }

  lemma {:induction false} ItemsIndent(env: Numbers, items: Items, depth: nat, compact: nat, rest: seq<Byte>,
                                       open: seq<bool>)
    requires NumbersOk(env) && |open| == depth > 0 && !open[depth - 1]
    ensures Indented(PrintItems(env, items, false, compact) + rest, open, Outside) ==
            PrintItems(env, items, true, depth) + Indented(rest, Closed(open), Outside)
    decreases items, 0
  {
    if items.Nil? {
      ByteIndents(rest, open);
    } else {
      var v, tail := items.head, items.tail;
      var s, r := PrintItems(env, tail, false, compact), PrintItems(env, tail, true, depth);
      var end := ItemEnd(tail, false);
      PrintIndents(env, v, depth, compact, end + (s + rest), open);
      ItemsIndent(env, tail, depth, compact, rest, open);
      SeparatorIndents(tail, s + rest, open);
      Nest4(Print(env, v, false, compact), end, s, rest);
      Nest4(Print(env, v, true, depth), ItemEnd(tail, true), r, Indented(rest, Closed(open), Outside));
    }
  }

  lemma EmptyObjectIndents(rest: seq<Byte>, open: seq<bool>)
    ensures Indented([0x7B] + [0x7D] + rest, open, Outside) ==
            [0x7B] + Line(|open|) + [0x7D] + Indented(rest, open, Outside)
  {
    var t := [0x7B] + [0x7D] + rest;
    assert t[0] == 0x7B && t[1] == 0x7D && t[2..] == rest;
  }

  lemma OpenBraceIndents(s: seq<Byte>, rest: seq<Byte>, open: seq<bool>)
    requires s != [] && s[0] == 0x22
    ensures Indented([0x7B] + s + rest, open, Outside) ==
            [0x7B] + Line(|open| + 1) + Indented(s + rest, open + [true], Outside)
  {
    Nest([0x7B], s, rest);
    Behind(0x7B, s + rest);
    assert ([0x7B] + (s + rest))[1] == s[0];
  }

  lemma {:induction false} ObjectIndents(env: Numbers, members: Members, depth: nat, compact: nat, rest: seq<Byte>,
                                         open: seq<bool>)
    requires NumbersOk(env) && |open| == depth
    ensures Indented(PrintObject(env, members, false, compact) + rest, open, Outside) ==
            PrintObject(env, members, true, depth) + Indented(rest, open, Outside)
    decreases members, 2
  {
    var s, r := PrintMembers(env, members, false, compact + 1), PrintMembers(env, members, true, depth + 1);
    assert [] + s == s;
    TabsAre(depth);
    TabsAre(depth + 1);
    if members.End? {
      EmptyObjectIndents(rest, open);
      Nest([0x7B], Line(depth), [0x7D]);
    } else {
      assert s[0] == 0x22;
      OpenBraceIndents(s, rest, open);
      MembersIndent(env, members, depth + 1, compact + 1, rest, open + [true]);
      assert Closed(open + [true]) == open;
      var final := Indented(rest, open, Outside);
      Nest4([0x7B], Line(depth + 1), r, final);
      Nest([0x7B], Line(depth + 1), r + final);
    }
  }

  lemma {:induction false} MembersIndent(env: Numbers, members: Members, depth: nat, compact: nat, rest: seq<Byte>,
                                         open: seq<bool>)
    requires NumbersOk(env) && |open| == depth > 0 && compact > 0 && open[depth - 1] && members.Member?
    ensures Indented(PrintMembers(env, members, false, compact) + rest, open, Outside) ==
            PrintMembers(env, members, true, depth) + Indented(rest, Closed(open), Outside)
    decreases members, 1
  {
    var key := Quoted(members.key);
    var s, r := PrintFromValue(env, members, false, compact), PrintFromValue(env, members, true, depth);
    var final := Indented(rest, Closed(open), Outside);
    QuotedStays(members.key, [0x3A] + (s + rest), open);
    ByteIndents(s + rest, open);
    FromValueIndents(env, members, depth, compact, rest, open);
    Nest4(key, [0x3A], s, rest);
    Nest4(key, [0x3A, 0x09], r, final);
  }

  lemma {:induction false} FromValueIndents(env: Numbers, members: Members, depth: nat, compact: nat, rest: seq<Byte>,
                                            open: seq<bool>)
    requires NumbersOk(env) && |open| == depth > 0 && compact > 0 && open[depth - 1] && members.Member?
    ensures Indented(PrintFromValue(env, members, false, compact) + rest, open, Outside) ==
            PrintFromValue(env, members, true, depth) + Indented(rest, Closed(open), Outside)
    decreases members, 0
  {
    var v, tail := members.value, members.rest;
    var s, r := PrintMembers(env, tail, false, compact), PrintMembers(env, tail, true, depth);
    var text, final := Print(env, v, true, depth), Indented(rest, Closed(open), Outside);
    var end, gap := MemberEnd(tail), Gap(tail, true, depth);
    assert [] + s == s;
    PrintIndents(env, v, depth, compact, end + s + rest, open);
    Nest(Print(env, v, false, compact), end + s, rest);
    EndIndents(env, tail, depth, compact, rest, open);
    Nest(text, end + (gap + r), final);
  }

  lemma {:induction false} EndIndents(env: Numbers, tail: Members, depth: nat, compact: nat, rest: seq<Byte>,
                                      open: seq<bool>)
    requires NumbersOk(env) && |open| == depth > 0 && compact > 0 && open[depth - 1]
    ensures Indented(MemberEnd(tail) + PrintMembers(env, tail, false, compact) + rest, open, Outside) ==
            MemberEnd(tail) + (Gap(tail, true, depth) + PrintMembers(env, tail, true, depth))
            + Indented(rest, Closed(open), Outside)
    decreases tail, 2
  {
    var s, r := PrintMembers(env, tail, false, compact), PrintMembers(env, tail, true, depth);
    var final := Indented(rest, Closed(open), Outside);
    TabsAre(depth);
    TabsAre(depth - 1);
    if tail.End? {
      ByteIndents(rest, open);
      assert [] + s == s == [0x7D];
      assert [] + (Line(depth - 1) + [0x7D]) == Line(depth - 1) + [0x7D];
    } else {
      MembersIndent(env, tail, depth, compact, rest, open);
      ByteIndents(s + rest, open);
      Nest([0x2C], s, rest);
      Nest4([0x2C], Line(depth), r, final);
      Nest([0x2C], Line(depth), r + final);
    }
  }

  /** The formatted text is the compact one with exactly the blanks of the layout. */
  lemma FormattedIsIndented(env: Numbers, v: Value)
    requires NumbersOk(env)
    ensures Print(env, v, true, 0) == Indented(Print(env, v, false, 0), [], Outside)
  {
    PrintIndents(env, v, 0, 0, [], []);
    var t := Print(env, v, false, 0);
    assert t + [] == t;
    assert Print(env, v, true, 0) + [] == Print(env, v, true, 0);
  }
}
