/**
  The texts that stand for a tree, with any blanks between their tokens, and that the parser reads exactly
  these. What a string literal may look like is the subject of JsonGrammar.
 */
module JsonSpelling {
  import opened Options
  import opened Seals
  import opened JsonText
  import opened JsonStrings
  import opened JsonValues
  import opened JsonParser

  // ---------------------------------------------------------------- the grammar

  /** There are only blanks between a and b. Every byte up to a space is one. */
  ghost predicate Blank(t: seq<Byte>, a: nat, b: nat) {
    a <= b <= |t| && forall i :: a <= i < b ==> t[i] <= SPACE
  }

  /** After a, the next byte that is not blank is at b. */
  ghost predicate Next(t: seq<Byte>, a: nat, b: nat) {
    Blank(t, a, b) && b < |t| && t[b] > SPACE
  }

  predicate NumberByte(b: Byte) {
    b in Ascii("0123456789+-.eE")
  }

  /** The longest run of number bytes at p that has no more than 63 of them. */
  ghost predicate NumberRun(t: seq<Byte>, p: nat, run: seq<Byte>) {
    && At(t, p, run) && |run| <= 63
    && (forall i :: 0 <= i < |run| ==> NumberByte(run[i]))
    && (|run| == 63 || p + |run| == |t| || !NumberByte(t[p + |run|]))
  }

  /** The number that strtod makes of the run at p, which starts with a minus or a digit. */
  ghost predicate SpellsNumber(env: Numbers, t: seq<Byte>, p: nat, n: nat, end: nat)
    requires p < |t|
  {
    && t[p] in Ascii("-0123456789")
    && exists run :: NumberRun(t, p, run)
         && env.scan(run).used != 0 && env.scan(run).number == n && end == p + env.scan(run).used
  }

  ghost predicate SpellsString(t: seq<Byte>, p: nat, s: CString, end: nat)
    requires p < |t|
  {
    Terminated(t) && t[p] == QUOTE && ParseString(t, p) == Parsed(s, end)
  }

  /** The text from p to end stands for v. */
  ghost predicate Spells(env: Numbers, t: seq<Byte>, p: nat, v: Value, end: nat)
    requires p < |t|
    decreases v, 0
  {
    forall seal: Seal {:trigger Broken(seal)} ::
      match v
      case Null => At(t, p, NULL_TEXT) && end == p + 4
      case False => At(t, p, FALSE_TEXT) && end == p + 5
      case True => At(t, p, TRUE_TEXT) && end == p + 4
      case Number(n) => SpellsNumber(env, t, p, n, end)
      case String(s) => SpellsString(t, p, s, end)
      case Array(items) =>
        t[p] == OPEN_BRACKET && exists q: nat :: Next(t, p + 1, q) && SpellsItems(env, t, q, items, end)
      case Object(members) =>
        t[p] == OPEN_BRACE && exists q: nat :: Next(t, p + 1, q) && SpellsMembers(env, t, q, members, end)
  }

  /** The text from p to end is the rest of an array: an element, or the closing bracket if there is none left. */
  ghost predicate SpellsItems(env: Numbers, t: seq<Byte>, p: nat, items: Items, end: nat)
    requires p < |t|
    decreases items, 0
  {
    forall seal: Seal {:trigger Broken(seal)} ::
      match items
      case Nil => t[p] == CLOSE_BRACKET && end == p + 1
      case Cons(v, rest) =>
        exists stop: nat, q: nat ::
          Spells(env, t, p, v, stop) && Next(t, stop, q) && SpellsAfterItem(env, t, q, rest, end)
  }

  /** The same after an element: a comma and the next one, or the closing bracket. */
  ghost predicate SpellsAfterItem(env: Numbers, t: seq<Byte>, q: nat, rest: Items, end: nat)
    requires q < |t|
    decreases rest, 1
  {
    if rest.Nil? then t[q] == CLOSE_BRACKET && end == q + 1
    else t[q] == COMMA && exists next: nat :: Next(t, q + 1, next) && SpellsItems(env, t, next, rest, end)
  }

  /** A key, a colon and a value. */
  ghost predicate SpellsMember(env: Numbers, t: seq<Byte>, p: nat, key: CString, v: Value, end: nat)
    requires p < |t|
    decreases v, 1
  {
    forall seal: Seal {:trigger Broken(seal)} ::
      exists stop: nat, colon: nat, value: nat ::
        && SpellsString(t, p, key, stop) && Next(t, stop, colon) && t[colon] == COLON
        && Next(t, colon + 1, value) && Spells(env, t, value, v, end)
  }

  ghost predicate SpellsMembers(env: Numbers, t: seq<Byte>, p: nat, members: Members, end: nat)
    requires p < |t|
    decreases members, 0
  {
    forall seal: Seal {:trigger Broken(seal)} ::
      match members
      case End => t[p] == CLOSE_BRACE && end == p + 1
      case Member(key, v, rest) =>
        exists stop: nat, q: nat ::
          SpellsMember(env, t, p, key, v, stop) && Next(t, stop, q) && SpellsAfterMember(env, t, q, rest, end)
  }

  ghost predicate SpellsAfterMember(env: Numbers, t: seq<Byte>, q: nat, rest: Members, end: nat)
    requires q < |t|
    decreases rest, 1
  {
    if rest.End? then t[q] == CLOSE_BRACE && end == q + 1
    else t[q] == COMMA && exists next: nat :: Next(t, q + 1, next) && SpellsMembers(env, t, next, rest, end)
  }

  // ---------------------------------------------------------------- blanks

  lemma {:induction false} SkipTo(t: seq<Byte>, a: nat, b: nat)
    requires Next(t, a, b)
    ensures Skip(t, a) == b
    decreases b - a
  {
    if a < b {
      SkipTo(t, a + 1, b);
    }
  }

  lemma {:induction false} SkipIsBlank(t: seq<Byte>, a: nat)
    requires a < |t|
    ensures Blank(t, a, Skip(t, a))
    ensures t[Skip(t, a)] > SPACE ==> Next(t, a, Skip(t, a))
    decreases |t| - a
  {
    if t[a] <= SPACE && a + 1 < |t| {
      SkipIsBlank(t, a + 1);
    }
  }

  // ---------------------------------------------------------------- numbers

  lemma NumberBytes(b: Byte)
    ensures NumberByte(b) <==> IsNumberByte(b)
    ensures b in Ascii("-0123456789") <==> b == MINUS || IsDigit(b)
  {
    var chars, first := Ascii("0123456789+-.eE"), Ascii("-0123456789");
    if IsDigit(b) {
      assert chars[b - 0x30] == b && first[b - 0x30 + 1] == b;
    }
    assert chars[10] == 0x2B && chars[11] == MINUS && chars[12] == 0x2E && chars[13] == 0x65 && chars[14] == 0x45;
    assert first[0] == MINUS;
  }

  lemma {:induction false} SpanIsRun(t: seq<Byte>, p: nat, room: nat)
    requires p <= |t|
    ensures var run := NumberSpan(t, p, room);
            && At(t, p, run) && |run| <= room && (forall i :: 0 <= i < |run| ==> IsNumberByte(run[i]))
            && (|run| == room || p + |run| == |t| || !IsNumberByte(t[p + |run|]))
    decreases room
  {
    if room > 0 && p < |t| && IsNumberByte(t[p]) {
      SpanIsRun(t, p + 1, room - 1);
      var run, rest := NumberSpan(t, p, room), NumberSpan(t, p + 1, room - 1);
      assert run == [t[p]] + rest;
      assert t[p..p + |run|] == [t[p]] + t[p + 1..p + 1 + |rest|];
    }
  }

  lemma RunIsSpan(t: seq<Byte>, p: nat, run: seq<Byte>)
    requires p <= |t|
    ensures NumberRun(t, p, run) <==> run == NumberSpan(t, p, 63)
  {
    if NumberRun(t, p, run) {
      RunEnds(t, p, run);
      SpanIs(t, p, |run|, 63);
    }
    if run == NumberSpan(t, p, 63) {
      SpanIsRun(t, p, 63);
      RunStarts(t, p, run);
    }
  }

  lemma RunEnds(t: seq<Byte>, p: nat, run: seq<Byte>)
    requires NumberRun(t, p, run)
    ensures forall j :: p <= j < p + |run| ==> IsNumberByte(t[j])
    ensures |run| == 63 || p + |run| == |t| || !IsNumberByte(t[p + |run|])
  {
    forall j | p <= j < p + |run|
      ensures IsNumberByte(t[j])
    {
      AtByte(t, p, run, j - p);
      NumberBytes(t[j]);
    }
    if p + |run| < |t| {
      NumberBytes(t[p + |run|]);
    }
  }

  lemma RunStarts(t: seq<Byte>, p: nat, run: seq<Byte>)
    requires At(t, p, run) && |run| <= 63 && forall i :: 0 <= i < |run| ==> IsNumberByte(run[i])
    requires |run| == 63 || p + |run| == |t| || !IsNumberByte(t[p + |run|])
    ensures NumberRun(t, p, run)
  {
    forall i | 0 <= i < |run|
      ensures NumberByte(run[i])
    {
      NumberBytes(run[i]);
    }
    if p + |run| < |t| {
      NumberBytes(t[p + |run|]);
    }
  }

  lemma SpellsNumberIff(env: Numbers, t: seq<Byte>, p: nat, n: nat, end: nat)
    requires p < |t|
    ensures SpellsNumber(env, t, p, n, end) <==>
            && (t[p] == MINUS || IsDigit(t[p]))
            && var scan := env.scan(NumberSpan(t, p, NUMBER_ROOM));
               scan.used != 0 && scan.number == n && end == p + scan.used
  {
    NumberBytes(t[p]);
    RunIsSpan(t, p, NumberSpan(t, p, 63));
    if run :| && NumberRun(t, p, run) && env.scan(run).used != 0 && env.scan(run).number == n
              && end == p + env.scan(run).used {
      RunIsSpan(t, p, run);
    }
  }

  // ---------------------------------------------------------------- what is spelled is read

  /** The result of parsing a text for something that fits under the nesting limit or does not. */
  ghost predicate Reads<T>(r: Parsed<T>, value: T, pos: nat, fits: bool) {
    if fits then r == Parsed(value, pos) else r.Failed?
  }

  ghost predicate ValueReads(env: Numbers, t: seq<Byte>, p: nat, depth: nat, value: Value, pos: nat, fits: bool)
    requires NumbersOk(env) && Terminated(t) && p < |t|
  {
    forall seal: Seal {:trigger Broken(seal)} :: Reads(ParseValue(env, t, p, depth), value, pos, fits)
  }

  ghost predicate ItemsRead(env: Numbers, t: seq<Byte>, p: nat, depth: nat, items: Items, pos: nat, fits: bool)
    requires NumbersOk(env) && Terminated(t) && p < |t|
  {
    forall seal: Seal {:trigger Broken(seal)} :: Reads(ParseItems(env, t, p, depth), items, pos, fits)
  }

  ghost predicate MemberReads(env: Numbers, t: seq<Byte>, p: nat, depth: nat, key: CString, value: Value, pos: nat,
                              fits: bool)
    requires NumbersOk(env) && Terminated(t) && p < |t|
  {
    forall seal: Seal {:trigger Broken(seal)} :: Reads(ParseMember(env, t, p, depth), (key, value), pos, fits)
  }

  ghost predicate MembersRead(env: Numbers, t: seq<Byte>, p: nat, depth: nat, members: Members, pos: nat, fits: bool)
    requires NumbersOk(env) && Terminated(t) && p < |t|
  {
    forall seal: Seal {:trigger Broken(seal)} :: Reads(ParseMembers(env, t, p, depth), members, pos, fits)
  }

  lemma ValueUnsealed(env: Numbers, t: seq<Byte>, p: nat, depth: nat, value: Value, pos: nat, fits: bool)
    requires NumbersOk(env) && Terminated(t) && p < |t| && ValueReads(env, t, p, depth, value, pos, fits)
    ensures Reads(ParseValue(env, t, p, depth), value, pos, fits)
  {
    assert Broken(Seal);
  }

  lemma ItemsUnsealed(env: Numbers, t: seq<Byte>, p: nat, depth: nat, items: Items, pos: nat, fits: bool)
    requires NumbersOk(env) && Terminated(t) && p < |t| && ItemsRead(env, t, p, depth, items, pos, fits)
    ensures Reads(ParseItems(env, t, p, depth), items, pos, fits)
  {
    assert Broken(Seal);
  }

  lemma MembersUnsealed(env: Numbers, t: seq<Byte>, p: nat, depth: nat, members: Members, pos: nat, fits: bool)
    requires NumbersOk(env) && Terminated(t) && p < |t| && MembersRead(env, t, p, depth, members, pos, fits)
    ensures Reads(ParseMembers(env, t, p, depth), members, pos, fits)
  {
    assert Broken(Seal);
  }

  lemma KeywordIsRead(env: Numbers, t: seq<Byte>, p: nat, depth: nat, v: Value, s: seq<Byte>)
    requires NumbersOk(env) && Terminated(t) && p < |t| && At(t, p, s)
    requires (v == Null && s == NULL_TEXT) || (v == False && s == FALSE_TEXT) || (v == True && s == TRUE_TEXT)
    ensures t[p] == s[0] && ParseValue(env, t, p, depth) == Parsed(v, p + |s|)
  {
    AtByte(t, p, s, 0);
    AtByte(t, p, s, 1);
    AtByte(t, p, s, 2);
    AtByte(t, p, s, 3);
    if v == False {
      AtByte(t, p, s, 4);
    }
  }

  lemma ScalarIsRead(env: Numbers, t: seq<Byte>, p: nat, v: Value, end: nat, depth: nat)
    requires NumbersOk(env) && Terminated(t) && p < |t| && Spells(env, t, p, v, end) && !v.Array? && !v.Object?
    ensures ParseValue(env, t, p, depth) == Parsed(v, end)
  {
    assert Broken(Seal);
    match v
    case Null => KeywordIsRead(env, t, p, depth, v, NULL_TEXT);
    case False => KeywordIsRead(env, t, p, depth, v, FALSE_TEXT);
    case True => KeywordIsRead(env, t, p, depth, v, TRUE_TEXT);
    case Number(n) => SpellsNumberIff(env, t, p, n, end);
    case String(s) =>
  }

  /** A value starts neither with a blank nor with a closing bracket. */
  lemma ValueStarts(env: Numbers, t: seq<Byte>, p: nat, v: Value, end: nat)
    requires p < |t| && Spells(env, t, p, v, end)
    ensures t[p] > SPACE && t[p] != CLOSE_BRACKET
  {
    assert Broken(Seal);
    match v
    case Null => AtByte(t, p, NULL_TEXT, 0);
    case False => AtByte(t, p, FALSE_TEXT, 0);
    case True => AtByte(t, p, TRUE_TEXT, 0);
    case Number(n) => SpellsNumberIff(env, t, p, n, end);
    case _ =>
  }

  lemma {:induction false} ValueIsRead(env: Numbers, t: seq<Byte>, p: nat, v: Value, end: nat, depth: nat)
    requires NumbersOk(env) && Terminated(t) && p < |t| && Spells(env, t, p, v, end) && depth <= NESTING_LIMIT
    ensures ValueReads(env, t, p, depth, v, end, depth + Nesting(v) <= NESTING_LIMIT)
    decreases v, 0
  {
    match v
    case Array(items) => ArrayIsRead(env, t, p, items, end, depth);
    case Object(members) => ObjectIsRead(env, t, p, members, end, depth);
    case _ => ScalarIsRead(env, t, p, v, end, depth);
  }

  lemma ArrayParts(env: Numbers, t: seq<Byte>, p: nat, items: Items, end: nat) returns (q: nat)
    requires p < |t| && Spells(env, t, p, Array(items), end)
    ensures t[p] == OPEN_BRACKET && Next(t, p + 1, q) && SpellsItems(env, t, q, items, end)
    ensures t[q] == CLOSE_BRACKET <==> items.Nil?
    ensures items.Nil? ==> end == q + 1
  {
    assert Broken(Seal);
    q :| Next(t, p + 1, q) && SpellsItems(env, t, q, items, end);
    if items.Cons? {
      var stop, _, _ := ItemsParts(env, t, q, items, end);
      ValueStarts(env, t, q, items.head, stop);
    }
  }

  lemma {:induction false} ArrayIsRead(env: Numbers, t: seq<Byte>, p: nat, items: Items, end: nat, depth: nat)
    requires NumbersOk(env) && Terminated(t) && p < |t| && Spells(env, t, p, Array(items), end) && depth <= NESTING_LIMIT
    ensures t[p] == OPEN_BRACKET
    ensures Reads(ParseArray(env, t, p, depth), Array(items), end, depth + 1 + ItemsNesting(items) <= NESTING_LIMIT)
    decreases items, 1
  {
    var q := ArrayParts(env, t, p, items, end);
    SkipTo(t, p + 1, q);
    if items.Cons? && depth < NESTING_LIMIT {
      ItemsAreRead(env, t, q, items, end, depth + 1);
      ItemsUnsealed(env, t, q, depth + 1, items, end, depth + 1 + ItemsNesting(items) <= NESTING_LIMIT);
    }
  }

  lemma LastItem(env: Numbers, t: seq<Byte>, p: nat, depth: nat, value: Value, stop: nat, fits: bool, q: nat)
    requires NumbersOk(env) && Terminated(t) && p < |t|
    requires ValueReads(env, t, p, depth, value, stop, fits) && Next(t, stop, q) && t[q] == CLOSE_BRACKET
    ensures ItemsRead(env, t, p, depth, Cons(value, Nil), q + 1, fits)
  {
    assert Broken(Seal);
    SkipTo(t, stop, q);
  }

  lemma MoreItems(env: Numbers, t: seq<Byte>, p: nat, depth: nat, value: Value, stop: nat, fits: bool, q: nat,
                  next: nat, rest: Items, end: nat, restFits: bool)
    requires NumbersOk(env) && Terminated(t) && p < |t|
    requires ValueReads(env, t, p, depth, value, stop, fits)
    requires Next(t, stop, q) && t[q] == COMMA && Next(t, q + 1, next)
    requires ItemsRead(env, t, next, depth, rest, end, restFits)
    ensures ItemsRead(env, t, p, depth, Cons(value, rest), end, fits && restFits)
  {
    assert Broken(Seal);
    SkipTo(t, stop, q);
    SkipTo(t, q + 1, next);
  }

  /** An element ends at `stop`; after it, at q, stands a comma or the closing bracket; `next` is after the comma. */
  lemma ItemsParts(env: Numbers, t: seq<Byte>, p: nat, items: Items, end: nat) returns (stop: nat, q: nat, next: nat)
    requires p < |t| && items.Cons? && SpellsItems(env, t, p, items, end)
    ensures Spells(env, t, p, items.head, stop) && Next(t, stop, q)
    ensures if items.tail.Nil? then t[q] == CLOSE_BRACKET && end == q + 1
            else t[q] == COMMA && Next(t, q + 1, next) && SpellsItems(env, t, next, items.tail, end)
  {
    assert Broken(Seal);
    stop, q :| && Spells(env, t, p, items.head, stop) && Next(t, stop, q)
               && SpellsAfterItem(env, t, q, items.tail, end);
    next := AfterItem(env, t, q, items.tail, end);
  }

  lemma AfterItem(env: Numbers, t: seq<Byte>, q: nat, rest: Items, end: nat) returns (next: nat)
    requires q < |t| && SpellsAfterItem(env, t, q, rest, end)
    ensures if rest.Nil? then t[q] == CLOSE_BRACKET && end == q + 1
            else t[q] == COMMA && Next(t, q + 1, next) && SpellsItems(env, t, next, rest, end)
  {
    assert Broken(Seal);
    next := 0;
    if rest.Cons? {
      next :| Next(t, q + 1, next) && SpellsItems(env, t, next, rest, end);
    }
  }

  lemma {:induction false} ItemsAreRead(env: Numbers, t: seq<Byte>, p: nat, items: Items, end: nat, depth: nat)
    requires NumbersOk(env) && Terminated(t) && p < |t| && depth <= NESTING_LIMIT
    requires items.Cons? && SpellsItems(env, t, p, items, end)
    ensures ItemsRead(env, t, p, depth, items, end, depth + ItemsNesting(items) <= NESTING_LIMIT)
    decreases items, 0
  {
    var v, rest := items.head, items.tail;
    var stop, q, next := ItemsParts(env, t, p, items, end);
    ValueIsRead(env, t, p, v, stop, depth);
    var fits := depth + Nesting(v) <= NESTING_LIMIT;
    if rest.Nil? {
      LastItem(env, t, p, depth, v, stop, fits, q);
    } else {
      ItemsAreRead(env, t, next, rest, end, depth);
      MoreItems(env, t, p, depth, v, stop, fits, q, next, rest, end, depth + ItemsNesting(rest) <= NESTING_LIMIT);
    }
  }

  lemma ObjectParts(env: Numbers, t: seq<Byte>, p: nat, members: Members, end: nat) returns (q: nat)
    requires p < |t| && Spells(env, t, p, Object(members), end)
    ensures t[p] == OPEN_BRACE && Next(t, p + 1, q) && SpellsMembers(env, t, q, members, end)
    ensures t[q] == if members.End? then CLOSE_BRACE else QUOTE
    ensures members.End? ==> end == q + 1
  {
    assert Broken(Seal);
    q :| Next(t, p + 1, q) && SpellsMembers(env, t, q, members, end);
    if members.Member? {
      var stop, _, _ := MembersParts(env, t, q, members, end);
      var _, _, _ := MemberParts(env, t, q, members.key, members.value, stop);
    }
  }

  lemma {:induction false} ObjectIsRead(env: Numbers, t: seq<Byte>, p: nat, members: Members, end: nat, depth: nat)
    requires NumbersOk(env) && Terminated(t) && p < |t| && Spells(env, t, p, Object(members), end) && depth <= NESTING_LIMIT
    ensures t[p] == OPEN_BRACE
    ensures Reads(ParseObject(env, t, p, depth), Object(members), end,
                  depth + 1 + MembersNesting(members) <= NESTING_LIMIT)
    decreases members, 1
  {
    var q := ObjectParts(env, t, p, members, end);
    SkipTo(t, p + 1, q);
    if members.Member? && depth < NESTING_LIMIT {
      MembersAreRead(env, t, q, members, end, depth + 1);
      MembersUnsealed(env, t, q, depth + 1, members, end, depth + 1 + MembersNesting(members) <= NESTING_LIMIT);
    }
  }

  lemma MemberParts(env: Numbers, t: seq<Byte>, p: nat, key: CString, v: Value, end: nat)
    returns (stop: nat, colon: nat, value: nat)
    requires p < |t| && SpellsMember(env, t, p, key, v, end)
    ensures t[p] == QUOTE && SpellsString(t, p, key, stop) && Next(t, stop, colon) && t[colon] == COLON
    ensures Next(t, colon + 1, value) && Spells(env, t, value, v, end)
  {
    assert Broken(Seal);
    stop, colon, value :|
      && SpellsString(t, p, key, stop) && Next(t, stop, colon) && t[colon] == COLON
      && Next(t, colon + 1, value) && Spells(env, t, value, v, end);
  }

  lemma {:induction false} MemberIsRead(env: Numbers, t: seq<Byte>, p: nat, key: CString, v: Value, end: nat,
                                        depth: nat)
    requires NumbersOk(env) && Terminated(t) && p < |t| && SpellsMember(env, t, p, key, v, end) && depth <= NESTING_LIMIT
    ensures MemberReads(env, t, p, depth, key, v, end, depth + Nesting(v) <= NESTING_LIMIT)
    decreases v, 1
  {
    var stop, colon, value := MemberParts(env, t, p, key, v, end);
    ValueIsRead(env, t, value, v, end, depth);
    SkipTo(t, stop, colon);
    SkipTo(t, colon + 1, value);
    ValueUnsealed(env, t, value, depth, v, end, depth + Nesting(v) <= NESTING_LIMIT);
  }

  lemma LastMember(env: Numbers, t: seq<Byte>, p: nat, depth: nat, key: CString, value: Value, stop: nat, fits: bool,
                   q: nat)
    requires NumbersOk(env) && Terminated(t) && p < |t|
    requires MemberReads(env, t, p, depth, key, value, stop, fits) && Next(t, stop, q) && t[q] == CLOSE_BRACE
    ensures MembersRead(env, t, p, depth, Member(key, value, End), q + 1, fits)
  {
    assert Broken(Seal);
    SkipTo(t, stop, q);
  }

  lemma MoreMembers(env: Numbers, t: seq<Byte>, p: nat, depth: nat, key: CString, value: Value, stop: nat, fits: bool,
                    q: nat, next: nat, rest: Members, end: nat, restFits: bool)
    requires NumbersOk(env) && Terminated(t) && p < |t|
    requires MemberReads(env, t, p, depth, key, value, stop, fits)
    requires Next(t, stop, q) && t[q] == COMMA && Next(t, q + 1, next)
    requires MembersRead(env, t, next, depth, rest, end, restFits)
    ensures MembersRead(env, t, p, depth, Member(key, value, rest), end, fits && restFits)
  {
    assert Broken(Seal);
    SkipTo(t, stop, q);
    SkipTo(t, q + 1, next);
    var m, r := ParseMember(env, t, p, depth), ParseMembers(env, t, next, depth);
    assert Reads(m, (key, value), stop, fits) && Reads(r, rest, end, restFits);
    if fits && restFits {
      assert ParseMembers(env, t, p, depth) == Parsed(Member(key, value, rest), end);
    } else {
      assert ParseMembers(env, t, p, depth).Failed?;
    }
  }

  lemma MembersParts(env: Numbers, t: seq<Byte>, p: nat, members: Members, end: nat)
    returns (stop: nat, q: nat, next: nat)
    requires p < |t| && members.Member? && SpellsMembers(env, t, p, members, end)
    ensures SpellsMember(env, t, p, members.key, members.value, stop) && Next(t, stop, q)
    ensures if members.rest.End? then t[q] == CLOSE_BRACE && end == q + 1
            else t[q] == COMMA && Next(t, q + 1, next) && SpellsMembers(env, t, next, members.rest, end)
  {
    assert Broken(Seal);
    stop, q :| && SpellsMember(env, t, p, members.key, members.value, stop) && Next(t, stop, q)
               && SpellsAfterMember(env, t, q, members.rest, end);
    next := AfterMember(env, t, q, members.rest, end);
  }

  lemma AfterMember(env: Numbers, t: seq<Byte>, q: nat, rest: Members, end: nat) returns (next: nat)
    requires q < |t| && SpellsAfterMember(env, t, q, rest, end)
    ensures if rest.End? then t[q] == CLOSE_BRACE && end == q + 1
            else t[q] == COMMA && Next(t, q + 1, next) && SpellsMembers(env, t, next, rest, end)
  {
    assert Broken(Seal);
    next := 0;
    if rest.Member? {
      next :| Next(t, q + 1, next) && SpellsMembers(env, t, next, rest, end);
    }
  }

  lemma {:induction false} MembersAreRead(env: Numbers, t: seq<Byte>, p: nat, members: Members, end: nat, depth: nat)
    requires NumbersOk(env) && Terminated(t) && p < |t| && depth <= NESTING_LIMIT
    requires members.Member? && SpellsMembers(env, t, p, members, end)
    ensures MembersRead(env, t, p, depth, members, end, depth + MembersNesting(members) <= NESTING_LIMIT)
    decreases members, 0
  {
    var key, v, rest := members.key, members.value, members.rest;
    var stop, q, next := MembersParts(env, t, p, members, end);
    MemberIsRead(env, t, p, key, v, stop, depth);
    var fits := depth + Nesting(v) <= NESTING_LIMIT;
    if rest.End? {
      LastMember(env, t, p, depth, key, v, stop, fits, q);
    } else {
      MembersAreRead(env, t, next, rest, end, depth);
      MoreMembers(env, t, p, depth, key, v, stop, fits, q, next, rest, end,
                  depth + MembersNesting(rest) <= NESTING_LIMIT);
    }
  }

  // ---------------------------------------------------------------- putting spellings together

  lemma ScalarIsSpelled(env: Numbers, t: seq<Byte>, p: nat, v: Value, end: nat)
    requires p < |t|
    requires match v
             case Null => At(t, p, NULL_TEXT) && end == p + 4
             case False => At(t, p, FALSE_TEXT) && end == p + 5
             case True => At(t, p, TRUE_TEXT) && end == p + 4
             case Number(n) => SpellsNumber(env, t, p, n, end)
             case String(s) => SpellsString(t, p, s, end)
             case _ => false
    ensures Spells(env, t, p, v, end)
  {
  }

  lemma ArrayIsSpelled(env: Numbers, t: seq<Byte>, p: nat, q: nat, items: Items, end: nat)
    requires p < |t| && t[p] == OPEN_BRACKET && Next(t, p + 1, q) && SpellsItems(env, t, q, items, end)
    ensures Spells(env, t, p, Array(items), end)
  {
  }

  lemma NoItemIsSpelled(env: Numbers, t: seq<Byte>, p: nat)
    requires p < |t| && t[p] == CLOSE_BRACKET
    ensures SpellsItems(env, t, p, Nil, p + 1)
  {
  }

  lemma ItemsAreSpelled(env: Numbers, t: seq<Byte>, p: nat, v: Value, stop: nat, q: nat, next: nat, rest: Items, end: nat)
    requires p < |t| && Spells(env, t, p, v, stop) && Next(t, stop, q)
    requires if rest.Nil? then t[q] == CLOSE_BRACKET && end == q + 1
             else t[q] == COMMA && Next(t, q + 1, next) && SpellsItems(env, t, next, rest, end)
    ensures SpellsItems(env, t, p, Cons(v, rest), end)
  {
    assert SpellsAfterItem(env, t, q, rest, end);
  }

  lemma ObjectIsSpelled(env: Numbers, t: seq<Byte>, p: nat, q: nat, members: Members, end: nat)
    requires p < |t| && t[p] == OPEN_BRACE && Next(t, p + 1, q) && SpellsMembers(env, t, q, members, end)
    ensures Spells(env, t, p, Object(members), end)
  {
  }

  lemma NoMemberIsSpelled(env: Numbers, t: seq<Byte>, p: nat)
    requires p < |t| && t[p] == CLOSE_BRACE
    ensures SpellsMembers(env, t, p, End, p + 1)
  {
  }

  lemma MemberIsSpelled(env: Numbers, t: seq<Byte>, p: nat, key: CString, stop: nat, colon: nat, value: nat, v: Value,
                        end: nat)
    requires p < |t| && SpellsString(t, p, key, stop) && Next(t, stop, colon) && t[colon] == COLON
    requires Next(t, colon + 1, value) && Spells(env, t, value, v, end)
    ensures SpellsMember(env, t, p, key, v, end)
  {
  }

  lemma MembersAreSpelled(env: Numbers, t: seq<Byte>, p: nat, key: CString, v: Value, stop: nat, q: nat, next: nat,
                          rest: Members, end: nat)
    requires p < |t| && SpellsMember(env, t, p, key, v, stop) && Next(t, stop, q)
    requires if rest.End? then t[q] == CLOSE_BRACE && end == q + 1
             else t[q] == COMMA && Next(t, q + 1, next) && SpellsMembers(env, t, next, rest, end)
    ensures SpellsMembers(env, t, p, Member(key, v, rest), end)
  {
    assert SpellsAfterMember(env, t, q, rest, end);
  }

  // ---------------------------------------------------------------- what is read is spelled

  lemma KeywordIsSpelled(env: Numbers, t: seq<Byte>, p: nat)
    requires Terminated(t) && p < |t|
    ensures var r := Keyword(t, p); r.Parsed? ==> Spells(env, t, p, r.value, r.pos)
  {
    var r := Keyword(t, p);
    if r.Parsed? {
      assert r.value == Null ==> t[p..p + 4] == NULL_TEXT;
      assert r.value == False ==> t[p..p + 5] == FALSE_TEXT;
      assert r.value == True ==> t[p..p + 4] == TRUE_TEXT;
      ScalarIsSpelled(env, t, p, r.value, r.pos);
    }
  }

  lemma {:induction false} ReadIsSpelled(env: Numbers, t: seq<Byte>, p: nat, depth: nat)
    requires NumbersOk(env) && Terminated(t) && p < |t|
    ensures var r := ParseValue(env, t, p, depth); r.Parsed? ==> Spells(env, t, p, r.value, r.pos)
    decreases |t| - p, 1
  {
    var r := ParseValue(env, t, p, depth);
    if Keyword(t, p).Parsed? {
      KeywordIsSpelled(env, t, p);
    } else if r.Parsed? {
      if t[p] == OPEN_BRACKET {
        ReadArrayIsSpelled(env, t, p, depth);
      } else if t[p] == OPEN_BRACE {
        ReadObjectIsSpelled(env, t, p, depth);
      } else {
        if r.value.Number? {
          SpellsNumberIff(env, t, p, r.value.n, r.pos);
        }
        ScalarIsSpelled(env, t, p, r.value, r.pos);
      }
    }
  }

  lemma {:induction false} ReadArrayIsSpelled(env: Numbers, t: seq<Byte>, p: nat, depth: nat)
    requires NumbersOk(env) && Terminated(t) && p < |t| && t[p] == OPEN_BRACKET
    ensures var r := ParseArray(env, t, p, depth); r.Parsed? ==> Spells(env, t, p, r.value, r.pos)
    decreases |t| - p, 0
  {
    var r := ParseArray(env, t, p, depth);
    if r.Parsed? {
      var q := Skip(t, p + 1);
      SkipIsBlank(t, p + 1);
      if t[q] == CLOSE_BRACKET {
        NoItemIsSpelled(env, t, q);
      } else {
        ReadItemsAreSpelled(env, t, q, depth + 1);
      }
      ArrayIsSpelled(env, t, p, q, r.value.items, r.pos);
    }
  }

  /** Where an element was read there is no blank. */
  lemma ReadStarts(env: Numbers, t: seq<Byte>, p: nat, depth: nat)
    requires NumbersOk(env) && Terminated(t) && p < |t| && ParseValue(env, t, p, depth).Parsed?
    ensures t[p] > SPACE
  {
  }

  lemma {:induction false} ReadItemsAreSpelled(env: Numbers, t: seq<Byte>, p: nat, depth: nat)
    requires NumbersOk(env) && Terminated(t) && p < |t|
    ensures var r := ParseItems(env, t, p, depth); r.Parsed? ==> t[p] > SPACE && SpellsItems(env, t, p, r.value, r.pos)
    decreases |t| - p, 2
  {
    var r, v := ParseItems(env, t, p, depth), ParseValue(env, t, p, depth);
    if r.Parsed? {
      ReadIsSpelled(env, t, p, depth);
      ReadStarts(env, t, p, depth);
      var q := Skip(t, v.pos);
      SkipIsBlank(t, v.pos);
      var next := q;
      if t[q] == COMMA {
        next := Skip(t, q + 1);
        SkipIsBlank(t, q + 1);
        ReadItemsAreSpelled(env, t, next, depth);
      }
      ItemsAreSpelled(env, t, p, v.value, v.pos, q, next, r.value.tail, r.pos);
    }
  }

  lemma {:induction false} ReadObjectIsSpelled(env: Numbers, t: seq<Byte>, p: nat, depth: nat)
    requires NumbersOk(env) && Terminated(t) && p < |t| && t[p] == OPEN_BRACE
    ensures var r := ParseObject(env, t, p, depth); r.Parsed? ==> Spells(env, t, p, r.value, r.pos)
    decreases |t| - p, 0
  {
    var r := ParseObject(env, t, p, depth);
    if r.Parsed? {
      var q := Skip(t, p + 1);
      SkipIsBlank(t, p + 1);
      if t[q] == CLOSE_BRACE {
        NoMemberIsSpelled(env, t, q);
      } else {
        ReadMembersAreSpelled(env, t, q, depth + 1);
      }
      ObjectIsSpelled(env, t, p, q, r.value.members, r.pos);
    }
  }

  lemma {:induction false} ReadMemberIsSpelled(env: Numbers, t: seq<Byte>, p: nat, depth: nat)
    requires NumbersOk(env) && Terminated(t) && p < |t|
    ensures var r := ParseMember(env, t, p, depth);
            r.Parsed? ==> t[p] > SPACE && SpellsMember(env, t, p, r.value.0, r.value.1, r.pos)
    decreases |t| - p, 2
  {
    var r := ParseMember(env, t, p, depth);
    if r.Parsed? {
      var key := ParseString(t, p);
      var colon := Skip(t, key.pos);
      var value := Skip(t, colon + 1);
      SkipIsBlank(t, key.pos);
      SkipIsBlank(t, colon + 1);
      ReadIsSpelled(env, t, value, depth);
      ReadStarts(env, t, value, depth);
      MemberIsSpelled(env, t, p, key.value, key.pos, colon, value, r.value.1, r.pos);
    }
  }

  /** A list of members was read: the first one, then the closing brace, or a comma and the others. */
  lemma ReadMembersParts(env: Numbers, t: seq<Byte>, p: nat, depth: nat)
    requires NumbersOk(env) && Terminated(t) && p < |t| && ParseMembers(env, t, p, depth).Parsed?
    ensures var r, m := ParseMembers(env, t, p, depth), ParseMember(env, t, p, depth);
            && m.Parsed? && r.value.Member? && (r.value.key, r.value.value) == m.value
            && var q := Skip(t, m.pos);
               if t[q] == COMMA then
                 q + 1 < |t| && ParseMembers(env, t, Skip(t, q + 1), depth) == Parsed(r.value.rest, r.pos)
               else t[q] == CLOSE_BRACE && r.value.rest == End && r.pos == q + 1
  {
  }

  lemma {:induction false} ReadMembersAreSpelled(env: Numbers, t: seq<Byte>, p: nat, depth: nat)
    requires NumbersOk(env) && Terminated(t) && p < |t|
    ensures var r := ParseMembers(env, t, p, depth);
            r.Parsed? ==> t[p] > SPACE && SpellsMembers(env, t, p, r.value, r.pos)
    decreases |t| - p, 3
  {
    var r, m := ParseMembers(env, t, p, depth), ParseMember(env, t, p, depth);
    if r.Parsed? {
      ReadMembersParts(env, t, p, depth);
      ReadMemberIsSpelled(env, t, p, depth);
      var q := Skip(t, m.pos);
      if t[q] == COMMA {
        ReadMembersAreSpelled(env, t, Skip(t, q + 1), depth);
        RestIsNotEmpty(env, t, Skip(t, q + 1), depth);
      }
      MembersFollow(env, t, p, m.value.0, m.value.1, m.pos, r.value.rest, r.pos);
    }
  }

  /** A member and what the parser found after it. */
  lemma MembersFollow(env: Numbers, t: seq<Byte>, p: nat, key: CString, v: Value, stop: nat, rest: Members, end: nat)
    requires p < |t| && stop < |t| && SpellsMember(env, t, p, key, v, stop)
    requires var q := Skip(t, stop);
             if rest.End? then t[q] == CLOSE_BRACE && end == q + 1
             else && t[q] == COMMA && q + 1 < |t|
                  && var next := Skip(t, q + 1); t[next] > SPACE && SpellsMembers(env, t, next, rest, end)
    ensures SpellsMembers(env, t, p, Member(key, v, rest), end)
  {
    var q := Skip(t, stop);
    SkipIsBlank(t, stop);
    if rest.Member? {
      SkipIsBlank(t, q + 1);
      MembersAreSpelled(env, t, p, key, v, stop, q, Skip(t, q + 1), rest, end);
    } else {
      MembersAreSpelled(env, t, p, key, v, stop, q, q, rest, end);
    }
  }

  lemma RestIsNotEmpty(env: Numbers, t: seq<Byte>, p: nat, depth: nat)
    requires NumbersOk(env) && Terminated(t) && p < |t| && ParseMembers(env, t, p, depth).Parsed?
    ensures ParseMembers(env, t, p, depth).value.Member?
  {
  }

  /** The parser accepts nothing that is nested more deeply than the limit. */
  lemma ParsedFits(env: Numbers, t: seq<Byte>, p: nat, depth: nat)
    requires NumbersOk(env) && Terminated(t) && p < |t| && depth <= NESTING_LIMIT
    ensures var r := ParseValue(env, t, p, depth); r.Parsed? ==> depth + Nesting(r.value) <= NESTING_LIMIT
  {
    var r := ParseValue(env, t, p, depth);
    if r.Parsed? {
      ReadIsSpelled(env, t, p, depth);
      ValueIsRead(env, t, p, r.value, r.pos, depth);
      ValueUnsealed(env, t, p, depth, r.value, r.pos, depth + Nesting(r.value) <= NESTING_LIMIT);
    }
  }

  /** The parser reads v from p to end if and only if the text there stands for v and v is not nested too deeply. */
  lemma ReadIffSpelled(env: Numbers, t: seq<Byte>, p: nat, v: Value, end: nat, depth: nat)
    requires NumbersOk(env) && Terminated(t) && p < |t| && depth <= NESTING_LIMIT
    ensures ParseValue(env, t, p, depth) == Parsed(v, end) <==>
            Spells(env, t, p, v, end) && depth + Nesting(v) <= NESTING_LIMIT
  {
    ReadIsSpelled(env, t, p, depth);
    ParsedFits(env, t, p, depth);
    if Spells(env, t, p, v, end) {
      ValueIsRead(env, t, p, v, end, depth);
      ValueUnsealed(env, t, p, depth, v, end, depth + Nesting(v) <= NESTING_LIMIT);
    }
  }

  /** A text stands for one tree only. */
  lemma SpellingIsUnique(env: Numbers, t: seq<Byte>, p: nat, v: Value, end: nat, w: Value, end': nat)
    requires NumbersOk(env) && Terminated(t) && p < |t| && Nesting(v) <= NESTING_LIMIT
    requires Spells(env, t, p, v, end) && Spells(env, t, p, w, end')
    ensures v == w && end == end'
  {
    ReadIffSpelled(env, t, p, v, end, 0);
    ValueIsRead(env, t, p, w, end', 0);
    ValueUnsealed(env, t, p, 0, w, end', Nesting(w) <= NESTING_LIMIT);
  }

  lemma {:induction false} SkipToEnd(t: seq<Byte>, a: nat)
    requires Terminated(t) && a < |t|
    ensures t[Skip(t, a)] == 0 <==> Blank(t, a, |t| - 1)
    ensures t[Skip(t, a)] == 0 ==> Skip(t, a) == |t| - 1
    decreases |t| - a
  {
    if t[a] <= SPACE && a + 1 < |t| {
      SkipToEnd(t, a + 1);
    }
  }

  /** A byte order mark is looked for in texts of more than four bytes, the terminator included. */
  ghost function AfterMark(t: seq<Byte>): nat {
    if |t| > 4 && t[..3] == [0xEF, 0xBB, 0xBF] then 3 else 0
  }

  lemma MarkIsSkipped(t: seq<Byte>)
    requires |t| > 0
    ensures SkipMark(t) == AfterMark(t)
  {
    if |t| > 4 {
      assert t[..3] == [t[0], t[1], t[2]];
    }
  }

  /**
    After the byte order mark and blanks the text stands for v, and what follows is anything at all or, if
    the whole text is demanded, blanks alone.
   */
  ghost predicate SpellsText(env: Numbers, t: seq<Byte>, toTheEnd: bool, v: Value, pos: nat)
    requires Terminated(t)
  {
    exists start: nat, stop: nat ::
      && Next(t, AfterMark(t), start) && Spells(env, t, start, v, stop)
      && if toTheEnd then Blank(t, stop, |t| - 1) && pos == |t| - 1 else pos == stop
  }

  lemma SpelledTextIsRead(env: Numbers, t: seq<Byte>, toTheEnd: bool, v: Value, pos: nat)
    requires NumbersOk(env) && Terminated(t) && SpellsText(env, t, toTheEnd, v, pos)
    ensures Reads(ParseText(env, t, toTheEnd), v, pos, Nesting(v) <= NESTING_LIMIT)
  {
    var start: nat, stop: nat :|
      && Next(t, AfterMark(t), start) && Spells(env, t, start, v, stop)
      && if toTheEnd then Blank(t, stop, |t| - 1) && pos == |t| - 1 else pos == stop;
    MarkIsSkipped(t);
    SkipTo(t, AfterMark(t), start);
    ValueIsRead(env, t, start, v, stop, 0);
    ValueUnsealed(env, t, start, 0, v, stop, Nesting(v) <= NESTING_LIMIT);
    if Nesting(v) <= NESTING_LIMIT {
      SkipToEnd(t, stop);
    }
  }

  /** When more than blanks follow a value, the error is at the first byte that is not blank. */
  lemma TrailingErrorAt(env: Numbers, t: seq<Byte>, v: Value, start: nat, stop: nat, q: nat)
    requires NumbersOk(env) && Terminated(t) && Next(t, AfterMark(t), start) && Spells(env, t, start, v, stop)
    requires Nesting(v) <= 1000 && Next(t, stop, q)
    ensures ParseText(env, t, true) == Failed(q)
  {
    MarkIsSkipped(t);
    SkipTo(t, AfterMark(t), start);
    ReadIffSpelled(env, t, start, v, stop, 0);
    SkipTo(t, stop, q);
  }

  lemma ReadTextIsSpelled(env: Numbers, t: seq<Byte>, toTheEnd: bool)
    requires NumbersOk(env) && Terminated(t) && ParseText(env, t, toTheEnd).Parsed?
    ensures var r := ParseText(env, t, toTheEnd);
            SpellsText(env, t, toTheEnd, r.value, r.pos) && Nesting(r.value) <= NESTING_LIMIT
  {
    MarkIsSkipped(t);
    var p := Skip(t, SkipMark(t));
    var r := ParseValue(env, t, p, 0);
    SkipIsBlank(t, SkipMark(t));
    SkipToEnd(t, r.pos);
    ReadStarts(env, t, p, 0);
    ReadIsSpelled(env, t, p, 0);
    ParsedFits(env, t, p, 0);
  }

  /** cJSON_ParseWithOpts accepts a text if and only if it stands for a tree within the nesting limit. */
  lemma TextIsReadIff(env: Numbers, t: seq<Byte>, toTheEnd: bool, v: Value, pos: nat)
    requires NumbersOk(env) && Terminated(t)
    ensures ParseText(env, t, toTheEnd) == Parsed(v, pos) <==>
            SpellsText(env, t, toTheEnd, v, pos) && Nesting(v) <= 1000
  {
    if ParseText(env, t, toTheEnd).Parsed? {
      ReadTextIsSpelled(env, t, toTheEnd);
    }
    if SpellsText(env, t, toTheEnd, v, pos) {
      SpelledTextIsRead(env, t, toTheEnd, v, pos);
    }
  }
}
