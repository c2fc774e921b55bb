/** Parsing a printed tree gives the tree back. */
module JsonRoundTrip {
  import opened Options
  import opened Seals
  import opened JsonText
  import opened JsonStrings
  import opened JsonValues
  import opened JsonParser
  import opened JsonSpelling

  // ---------------------------------------------------------------- the pieces of a text

  lemma {:induction false} CutIsWhole(s: CString)
    ensures Cut(s) == s
  {
    if s != [] {
      CutIsWhole(s[1..]);
    }
  }

  lemma PassesGiveString(t: seq<Byte>, p: nat, end: nat, s: CString)
    requires Terminated(t) && p < |t| && t[p] == QUOTE
    requires StringEnd(t, p + 1) == Some(end) && Decode(t, p + 1, end) == Decoded(s)
    ensures ParseString(t, p) == Parsed(s, end + 1)
  {
    CutIsWhole(s);
  }

  /** The string coding round trip, at any position of any text. */
  lemma QuotedIsRead(t: seq<Byte>, p: nat, s: CString)
    requires Terminated(t) && At(t, p, Quoted(s))
    ensures p < |t| && ParseString(t, p) == Parsed(s, p + |Quoted(s)|)
  {
    QuotedParts(t, p, Escape(s));
    EscapedIsRead(t, p + 1, s);
    PassesGiveString(t, p, p + 1 + |Escape(s)|, s);
  }

  lemma QuotedParts(t: seq<Byte>, p: nat, e: seq<Byte>)
    requires At(t, p, [QUOTE] + e + [QUOTE])
    ensures p < |t| && t[p] == QUOTE && At(t, p + 1, e + [QUOTE])
  {
    assert [QUOTE] + e + [QUOTE] == [QUOTE] + (e + [QUOTE]);
    AtSplit(t, p, [QUOTE], e + [QUOTE]);
    AtByte(t, p, [QUOTE], 0);
  }

  /** A printed value is not empty and starts neither with a blank nor with a closing bracket or brace. */
  lemma FirstByte(env: Numbers, v: Value, fmt: bool, depth: nat)
    requires NumbersOk(env)
    ensures var s := Print(env, v, fmt, depth);
            s != [] && SPACE < s[0] < 0x80 && s[0] != CLOSE_BRACKET && s[0] != CLOSE_BRACE
  {
    if v.Number? && env.finite(v.n) {
      assert ShowOk(env, v.n);
    }
  }

  lemma NumberIsSpelled(env: Numbers, t: seq<Byte>, p: nat, n: nat)
    requires NumbersOk(env) && env.finite(n) && At(t, p, env.show(n))
    requires p + |env.show(n)| < |t| && !IsNumberByte(t[p + |env.show(n)|])
    ensures SpellsNumber(env, t, p, n, p + |env.show(n)|)
  {
    var s := env.show(n);
    assert ShowOk(env, n);
    AtByte(t, p, s, 0);
    forall j | p <= j < p + |s|
      ensures IsNumberByte(t[j])
    {
      AtByte(t, p, s, j - p);
    }
    SpanIs(t, p, |s|, NUMBER_ROOM);
    SpellsNumberIff(env, t, p, n, p + |s|);
  }

  // ---------------------------------------------------------------- where the parts of a printed tree stand

  /** The text of v stands between p and end. */
  ghost predicate ValueAt(env: Numbers, t: seq<Byte>, p: nat, v: Value, fmt: bool, level: nat, end: nat) {
    forall seal: Seal {:trigger Broken(seal)} ::
      At(t, p, Print(env, v, fmt, level)) && end == p + |Print(env, v, fmt, level)|
  }

  /** The rest of an array stands between p and end. */
  ghost predicate ItemsAt(env: Numbers, t: seq<Byte>, p: nat, items: Items, fmt: bool, level: nat, end: nat) {
    forall seal: Seal {:trigger Broken(seal)} ::
      At(t, p, PrintItems(env, items, fmt, level)) && end == p + |PrintItems(env, items, fmt, level)|
  }

  /** The rest of an object, from a key on, stands between p and end. */
  ghost predicate MembersAt(env: Numbers, t: seq<Byte>, p: nat, members: Members, fmt: bool, level: nat, end: nat)
    requires level > 0
  {
    forall seal: Seal {:trigger Broken(seal)} ::
      At(t, p, PrintMembers(env, members, fmt, level)) && end == p + |PrintMembers(env, members, fmt, level)|
  }

  lemma ValueStart(env: Numbers, t: seq<Byte>, p: nat, v: Value, fmt: bool, level: nat, end: nat)
    requires NumbersOk(env) && ValueAt(env, t, p, v, fmt, level, end)
    ensures p < end <= |t| && t[p] > SPACE && t[p] != CLOSE_BRACKET
  {
    assert Broken(Seal);
    FirstByte(env, v, fmt, level);
    AtByte(t, p, Print(env, v, fmt, level), 0);
  }

  lemma ItemsStart(env: Numbers, t: seq<Byte>, p: nat, items: Items, fmt: bool, level: nat, end: nat)
    requires NumbersOk(env) && ItemsAt(env, t, p, items, fmt, level, end)
    ensures p < end <= |t| && t[p] > SPACE
    ensures t[p] == CLOSE_BRACKET <==> items.Nil?
    ensures items.Nil? ==> end == p + 1
  {
    assert Broken(Seal);
    if items.Cons? {
      FirstByte(env, items.head, fmt, level);
    }
    AtByte(t, p, PrintItems(env, items, fmt, level), 0);
  }

  lemma ArrayLayout(env: Numbers, t: seq<Byte>, p: nat, items: Items, fmt: bool, level: nat, end: nat)
    requires ValueAt(env, t, p, Array(items), fmt, level, end)
    ensures p < |t| && t[p] == OPEN_BRACKET && ItemsAt(env, t, p + 1, items, fmt, level + 1, end)
  {
    assert Broken(Seal);
    var s := PrintItems(env, items, fmt, level + 1);
    assert Print(env, Array(items), fmt, level) == [OPEN_BRACKET] + s;
    AtSplit(t, p, [OPEN_BRACKET], s);
    AtByte(t, p, [OPEN_BRACKET], 0);
  }

  /** An element ends at `mid`; the next one starts at `next`. */
  lemma ItemsSplit(env: Numbers, t: seq<Byte>, p: nat, items: Items, fmt: bool, level: nat, end: nat)
    returns (mid: nat, next: nat)
    requires ItemsAt(env, t, p, items, fmt, level, end) && items.Cons?
    ensures ValueAt(env, t, p, items.head, fmt, level, mid)
    ensures next == mid + |ItemEnd(items.tail, fmt)| && At(t, mid, ItemEnd(items.tail, fmt))
    ensures ItemsAt(env, t, next, items.tail, fmt, level, end)
  {
    assert Broken(Seal);
    var s, sep, rest := Print(env, items.head, fmt, level), ItemEnd(items.tail, fmt),
                        PrintItems(env, items.tail, fmt, level);
    mid := p + |s|;
    next := mid + |sep|;
    AtSplit(t, p, s, sep + rest);
    AtSplit(t, mid, sep, rest);
  }

  /** After an element: the closing bracket, or a comma and the next element. */
  lemma ItemsLayout(env: Numbers, t: seq<Byte>, p: nat, items: Items, fmt: bool, level: nat, end: nat)
    returns (mid: nat, next: nat)
    requires NumbersOk(env) && ItemsAt(env, t, p, items, fmt, level, end) && items.Cons?
    ensures ValueAt(env, t, p, items.head, fmt, level, mid)
    ensures Next(t, mid, mid) && !IsNumberByte(t[mid])
    ensures next < |t| && ItemsAt(env, t, next, items.tail, fmt, level, end)
    ensures if items.tail.Nil? then t[mid] == CLOSE_BRACKET && end == mid + 1
            else t[mid] == COMMA && Next(t, mid + 1, next)
  {
    mid, next := ItemsSplit(env, t, p, items, fmt, level, end);
    ItemsStart(env, t, next, items.tail, fmt, level, end);
    if items.tail.Cons? {
      AtByte(t, mid, ItemEnd(items.tail, fmt), 0);
      if fmt {
        AtByte(t, mid, ItemEnd(items.tail, fmt), 1);
      }
    }
  }

  lemma {:induction false} TabsAreTabs(n: nat)
    ensures forall i :: 0 <= i < n ==> Tabs(n)[i] == TAB
  {
    if n > 0 {
      TabsAreTabs(n - 1);
    }
  }

  lemma GapIsBlank(t: seq<Byte>, p: nat, members: Members, fmt: bool, level: nat)
    requires level > 0 && At(t, p, Gap(members, fmt, level))
    ensures Blank(t, p, p + |Gap(members, fmt, level)|)
  {
    var n := if members.End? then level - 1 else level;
    var gap := Gap(members, fmt, level);
    TabsAreTabs(n);
    forall i | p <= i < p + |gap|
      ensures t[i] <= SPACE
    {
      AtByte(t, p, gap, i - p);
    }
  }

  lemma MembersStart(env: Numbers, t: seq<Byte>, p: nat, members: Members, fmt: bool, level: nat, end: nat)
    requires level > 0 && MembersAt(env, t, p, members, fmt, level, end)
    ensures p < end <= |t| && t[p] == if members.End? then CLOSE_BRACE else QUOTE
    ensures members.End? ==> end == p + 1
  {
    assert Broken(Seal);
    AtByte(t, p, PrintMembers(env, members, fmt, level), 0);
  }

  lemma ObjectSplit(env: Numbers, t: seq<Byte>, p: nat, members: Members, fmt: bool, level: nat, end: nat)
    requires ValueAt(env, t, p, Object(members), fmt, level, end)
    ensures p < |t| && t[p] == OPEN_BRACE && At(t, p + 1, Gap(members, fmt, level + 1))
    ensures MembersAt(env, t, p + 1 + |Gap(members, fmt, level + 1)|, members, fmt, level + 1, end)
  {
    assert Broken(Seal);
    var gap, s := Gap(members, fmt, level + 1), PrintMembers(env, members, fmt, level + 1);
    assert Print(env, Object(members), fmt, level) == [OPEN_BRACE] + (gap + s);
    AtSplit(t, p, [OPEN_BRACE], gap + s);
    AtByte(t, p, [OPEN_BRACE], 0);
    AtSplit(t, p + 1, gap, s);
  }

  lemma ObjectLayout(env: Numbers, t: seq<Byte>, p: nat, members: Members, fmt: bool, level: nat, end: nat)
    returns (q: nat)
    requires ValueAt(env, t, p, Object(members), fmt, level, end)
    ensures p < |t| && t[p] == OPEN_BRACE
    ensures Next(t, p + 1, q) && MembersAt(env, t, q, members, fmt, level + 1, end)
  {
    ObjectSplit(env, t, p, members, fmt, level, end);
    q := p + 1 + |Gap(members, fmt, level + 1)|;
    GapIsBlank(t, p + 1, members, fmt, level + 1);
    MembersStart(env, t, q, members, fmt, level + 1, end);
  }

  /** The rest of an object, from a value on, stands between p and end. */
  ghost predicate FromValueAt(env: Numbers, t: seq<Byte>, p: nat, members: Members, fmt: bool, level: nat, end: nat)
    requires level > 0 && members.Member?
  {
    forall seal: Seal {:trigger Broken(seal)} ::
      At(t, p, PrintFromValue(env, members, fmt, level)) && end == p + |PrintFromValue(env, members, fmt, level)|
  }

  lemma KeySplit(env: Numbers, t: seq<Byte>, p: nat, members: Members, fmt: bool, level: nat, end: nat)
    returns (colon: nat)
    requires level > 0 && members.Member? && MembersAt(env, t, p, members, fmt, level, end)
    ensures At(t, p, Quoted(members.key)) && colon == p + |Quoted(members.key)|
    ensures At(t, colon, Colon(fmt))
    ensures FromValueAt(env, t, colon + |Colon(fmt)|, members, fmt, level, end)
  {
    assert Broken(Seal);
    var key, s := Quoted(members.key), PrintFromValue(env, members, fmt, level);
    colon := p + |key|;
    AtSplitTwice(t, p, key, Colon(fmt), s);
  }

  lemma AtSplitTwice(t: seq<Byte>, p: nat, a: seq<Byte>, b: seq<Byte>, c: seq<Byte>)
    requires At(t, p, a + (b + c))
    ensures At(t, p, a) && At(t, p + |a|, b) && At(t, p + |a| + |b|, c)
  {
    AtSplit(t, p, a, b + c);
    AtSplit(t, p + |a|, b, c);
  }

  lemma ValueSplit(env: Numbers, t: seq<Byte>, p: nat, members: Members, fmt: bool, level: nat, end: nat)
    returns (stop: nat, gap: nat)
    requires level > 0 && members.Member? && FromValueAt(env, t, p, members, fmt, level, end)
    ensures ValueAt(env, t, p, members.value, fmt, level, stop)
    ensures At(t, stop, MemberEnd(members.rest)) && gap == stop + |MemberEnd(members.rest)|
    ensures At(t, gap, Gap(members.rest, fmt, level))
    ensures MembersAt(env, t, gap + |Gap(members.rest, fmt, level)|, members.rest, fmt, level, end)
  {
    assert Broken(Seal);
    var s, comma := Print(env, members.value, fmt, level), MemberEnd(members.rest);
    var blanks, rest := Gap(members.rest, fmt, level), PrintMembers(env, members.rest, fmt, level);
    stop := p + |s|;
    gap := stop + |comma|;
    AtSplit(t, p, s, comma + (blanks + rest));
    AtSplit(t, stop, comma, blanks + rest);
    AtSplit(t, gap, blanks, rest);
  }

  lemma ColonLayout(t: seq<Byte>, colon: nat, fmt: bool)
    requires At(t, colon, Colon(fmt))
    requires colon + |Colon(fmt)| < |t| && t[colon + |Colon(fmt)|] > SPACE
    ensures t[colon] == COLON && Next(t, colon, colon) && Next(t, colon + 1, colon + |Colon(fmt)|)
  {
    AtByte(t, colon, Colon(fmt), 0);
    if fmt {
      AtByte(t, colon, Colon(fmt), 1);
    }
  }

  /** A string literal for `key` stands between p and end. */
  ghost predicate KeyAt(t: seq<Byte>, p: nat, key: CString, end: nat) {
    forall seal: Seal {:trigger Broken(seal)} ::
      p < end < |t| && SpellsString(t, p, key, end)
  }

  lemma KeyIsSpelled(t: seq<Byte>, p: nat, key: CString)
    requires Terminated(t) && At(t, p, Quoted(key))
    ensures KeyAt(t, p, key, p + |Quoted(key)|)
  {
    AtByte(t, p, Quoted(key), 0);
    QuotedIsRead(t, p, key);
  }

  /** The parts of one printed member, with the texts of the key and the gap put away. */
  lemma MembersCut(env: Numbers, t: seq<Byte>, p: nat, members: Members, fmt: bool, level: nat, end: nat)
    returns (colon: nat, stop: nat, next: nat)
    requires Terminated(t) && level > 0 && members.Member? && MembersAt(env, t, p, members, fmt, level, end)
    ensures KeyAt(t, p, members.key, colon) && At(t, colon, Colon(fmt))
    ensures ValueAt(env, t, colon + |Colon(fmt)|, members.value, fmt, level, stop)
    ensures At(t, stop, MemberEnd(members.rest)) && Blank(t, stop + |MemberEnd(members.rest)|, next)
    ensures MembersAt(env, t, next, members.rest, fmt, level, end)
  {
    colon := KeySplit(env, t, p, members, fmt, level, end);
    var gap;
    stop, gap := ValueSplit(env, t, colon + |Colon(fmt)|, members, fmt, level, end);
    next := gap + |Gap(members.rest, fmt, level)|;
    KeyIsSpelled(t, p, members.key);
    GapIsBlank(t, gap, members.rest, fmt, level);
  }

  /** After a member: the closing brace, or a comma and the next key. */
  lemma MembersGoOn(env: Numbers, t: seq<Byte>, stop: nat, next: nat, rest: Members, fmt: bool, level: nat, end: nat)
    requires level > 0 && At(t, stop, MemberEnd(rest)) && Blank(t, stop + |MemberEnd(rest)|, next)
    requires MembersAt(env, t, next, rest, fmt, level, end)
    ensures stop < |t| && next < |t| && !IsNumberByte(t[stop])
    ensures if rest.End? then Next(t, stop, next) && t[next] == CLOSE_BRACE && end == next + 1
            else Next(t, stop, stop) && t[stop] == COMMA && Next(t, stop + 1, next)
  {
    MembersStart(env, t, next, rest, fmt, level, end);
    if rest.Member? {
      AtByte(t, stop, MemberEnd(rest), 0);
    } else {
      assert t[stop] <= SPACE || t[stop] == CLOSE_BRACE;
    }
  }

  // ---------------------------------------------------------------- the induction over a tree

  lemma ScalarSpells(env: Numbers, t: seq<Byte>, p: nat, v: Value, fmt: bool, level: nat, end: nat)
    requires NumbersOk(env) && Terminated(t) && p < |t| && !v.Array? && !v.Object?
    requires ValueAt(env, t, p, v, fmt, level, end) && end < |t| && !IsNumberByte(t[end])
    ensures Spells(env, t, p, Nulled(env, v), end)
  {
    assert Broken(Seal);
    match v
    case Number(n) =>
      if env.finite(n) {
        NumberIsSpelled(env, t, p, n);
      }
      ScalarIsSpelled(env, t, p, Nulled(env, v), end);
    case String(s) =>
      KeyIsSpelled(t, p, s);
      ScalarIsSpelled(env, t, p, v, end);
    case _ => ScalarIsSpelled(env, t, p, v, end);
  }

  /** The printed text stands for the tree, with null for every number that is not finite. */
  lemma {:induction false} PrintSpells(env: Numbers, t: seq<Byte>, p: nat, v: Value, fmt: bool, level: nat, end: nat)
    requires NumbersOk(env) && Terminated(t) && p < |t|
    requires ValueAt(env, t, p, v, fmt, level, end) && end < |t| && !IsNumberByte(t[end])
    ensures Spells(env, t, p, Nulled(env, v), end)
    decreases v
  {
    match v
    case Array(items) =>
      ArrayLayout(env, t, p, items, fmt, level, end);
      ItemsStart(env, t, p + 1, items, fmt, level + 1, end);
      PrintedItemsSpell(env, t, p + 1, items, fmt, level + 1, end);
      ArrayIsSpelled(env, t, p, p + 1, NulledItems(env, items), end);
    case Object(members) =>
      var q := ObjectLayout(env, t, p, members, fmt, level, end);
      PrintedMembersSpell(env, t, q, members, fmt, level + 1, end);
      ObjectIsSpelled(env, t, p, q, NulledMembers(env, members), end);
    case _ => ScalarSpells(env, t, p, v, fmt, level, end);
  }

  lemma {:induction false} PrintedItemsSpell(env: Numbers, t: seq<Byte>, p: nat, items: Items, fmt: bool, level: nat,
                                             end: nat)
    requires NumbersOk(env) && Terminated(t) && p < |t| && ItemsAt(env, t, p, items, fmt, level, end)
    ensures SpellsItems(env, t, p, NulledItems(env, items), end)
    decreases items
  {
    if items.Nil? {
      ItemsStart(env, t, p, items, fmt, level, end);
      NoItemIsSpelled(env, t, p);
    } else {
      var v, rest := items.head, items.tail;
      var stop, next := ItemsLayout(env, t, p, items, fmt, level, end);
      PrintSpells(env, t, p, v, fmt, level, stop);
      if rest.Cons? {
        PrintedItemsSpell(env, t, next, rest, fmt, level, end);
      }
      ItemsAreSpelled(env, t, p, Nulled(env, v), stop, stop, next, NulledItems(env, rest), end);
    }
  }

  lemma KeyAndColonSpell(env: Numbers, t: seq<Byte>, p: nat, key: CString, fmt: bool, colon: nat, v: Value, stop: nat)
    requires p < |t| && KeyAt(t, p, key, colon) && At(t, colon, Colon(fmt))
    requires colon + |Colon(fmt)| < |t| && t[colon + |Colon(fmt)|] > SPACE
    requires Spells(env, t, colon + |Colon(fmt)|, v, stop)
    ensures SpellsMember(env, t, p, key, v, stop)
  {
    ColonLayout(t, colon, fmt);
    assert SpellsString(t, p, key, colon) by { assert Broken(Seal); }
    MemberIsSpelled(env, t, p, key, colon, colon, colon + |Colon(fmt)|, v, stop);
  }

  lemma {:induction false} PrintedMembersSpell(env: Numbers, t: seq<Byte>, p: nat, members: Members, fmt: bool,
                                               level: nat, end: nat)
    requires NumbersOk(env) && Terminated(t) && p < |t| && level > 0 && MembersAt(env, t, p, members, fmt, level, end)
    ensures SpellsMembers(env, t, p, NulledMembers(env, members), end)
    decreases members
  {
    if members.End? {
      MembersStart(env, t, p, members, fmt, level, end);
      NoMemberIsSpelled(env, t, p);
    } else {
      var key, v, rest := members.key, members.value, members.rest;
      var colon, stop, next := MembersCut(env, t, p, members, fmt, level, end);
      var value := colon + |Colon(fmt)|;
      ValueStart(env, t, value, v, fmt, level, stop);
      MembersGoOn(env, t, stop, next, rest, fmt, level, end);
      PrintSpells(env, t, value, v, fmt, level, stop);
      KeyAndColonSpell(env, t, p, key, fmt, colon, Nulled(env, v), stop);
      if rest.Member? {
        PrintedMembersSpell(env, t, next, rest, fmt, level, end);
      }
      MembersAreSpelled(env, t, p, key, Nulled(env, v), stop, if rest.End? then next else stop, next,
                        NulledMembers(env, rest), end);
    }
  }

  // ---------------------------------------------------------------- whole texts

  lemma {:induction false} EscapeHasNoZero(s: CString)
    ensures 0 !in Escape(s)
  {
    if s != [] {
      EscapeHasNoZero(s[1..]);
      var e := EscapeByte(s[0]);
      assert forall i :: 0 <= i < |e| ==> e[i] != 0;
    }
  }

  lemma NumberHasNoZero(env: Numbers, n: nat)
    requires NumbersOk(env)
    ensures 0 !in NumberPrint(env, n)
  {
    if env.finite(n) {
      var s := env.show(n);
      assert ShowOk(env, n);
      assert forall i :: 0 <= i < |s| ==> IsNumberByte(s[i]);
    }
  }

  /** A printed text is a C string. */
  lemma {:induction false} PrintHasNoZero(env: Numbers, v: Value, fmt: bool, level: nat)
    requires NumbersOk(env)
    ensures 0 !in Print(env, v, fmt, level)
    decreases v
  {
    match v
    case Number(n) => NumberHasNoZero(env, n);
    case String(s) => EscapeHasNoZero(s);
    case Array(items) => ItemsHaveNoZero(env, items, fmt, level + 1);
    case Object(members) => ObjectHasNoZero(env, members, fmt, level);
    case _ =>
  }

  lemma {:induction false} ObjectHasNoZero(env: Numbers, members: Members, fmt: bool, level: nat)
    requires NumbersOk(env)
    ensures 0 !in PrintObject(env, members, fmt, level)
    decreases members, 2
  {
    GapHasNoZero(members, fmt, level + 1);
    MembersHaveNoZero(env, members, fmt, level + 1);
  }

  lemma {:induction false} ItemsHaveNoZero(env: Numbers, items: Items, fmt: bool, level: nat)
    requires NumbersOk(env)
    ensures 0 !in PrintItems(env, items, fmt, level)
    decreases items
  {
    if items.Cons? {
      PrintHasNoZero(env, items.head, fmt, level);
      ItemsHaveNoZero(env, items.tail, fmt, level);
    }
  }

  lemma GapHasNoZero(members: Members, fmt: bool, level: nat)
    requires level > 0
    ensures 0 !in Gap(members, fmt, level)
  {
    TabsAreTabs(if members.End? then level - 1 else level);
  }

  lemma {:induction false} MembersHaveNoZero(env: Numbers, members: Members, fmt: bool, level: nat)
    requires NumbersOk(env) && level > 0
    ensures 0 !in PrintMembers(env, members, fmt, level)
    decreases members, 1
  {
    if members.Member? {
      EscapeHasNoZero(members.key);
      FromValueHasNoZero(env, members, fmt, level);
    }
  }

  lemma {:induction false} FromValueHasNoZero(env: Numbers, members: Members, fmt: bool, level: nat)
    requires NumbersOk(env) && level > 0 && members.Member?
    ensures 0 !in PrintFromValue(env, members, fmt, level)
    decreases members, 0
  {
    PrintHasNoZero(env, members.value, fmt, level);
    GapHasNoZero(members.rest, fmt, level);
    MembersHaveNoZero(env, members.rest, fmt, level);
  }

  /** The buffer that the parser sees for a printed tree. */
  function Printed(env: Numbers, v: Value, fmt: bool): seq<Byte> {
    Print(env, v, fmt, 0) + [0]
  }

  lemma PrintedIsTerminated(env: Numbers, v: Value, fmt: bool)
    requires NumbersOk(env)
    ensures Terminated(Printed(env, v, fmt)) && 0 !in Print(env, v, fmt, 0)
  {
    PrintHasNoZero(env, v, fmt, 0);
  }

  lemma PrintedLayout(env: Numbers, v: Value, fmt: bool)
    requires NumbersOk(env)
    ensures var t, end := Printed(env, v, fmt), |Print(env, v, fmt, 0)|;
            ValueAt(env, t, 0, v, fmt, 0, end) && |t| == end + 1 && t[end] == 0 && SkipMark(t) == 0
  {
    var t, s := Printed(env, v, fmt), Print(env, v, fmt, 0);
    assert t[0..0 + |s|] == s;
    FirstByte(env, v, fmt, 0);
    assert t[0] == s[0];
  }

  /**
    Printing any tree, formatted or not, and parsing the text reads exactly that text and gives the tree
    back, with null for every number that is not finite; a tree nested more deeply than the limit is
    rejected.
   */
  lemma PrintThenParse(env: Numbers, v: Value, fmt: bool, toTheEnd: bool)
    requires NumbersOk(env)
    ensures Terminated(Printed(env, v, fmt))
    ensures Reads(ParseText(env, Printed(env, v, fmt), toTheEnd), Nulled(env, v), |Print(env, v, fmt, 0)|,
                  Nesting(v) <= NESTING_LIMIT)
  {
    var t, end := Printed(env, v, fmt), |Print(env, v, fmt, 0)|;
    PrintedIsTerminated(env, v, fmt);
    PrintedLayout(env, v, fmt);
    ValueStart(env, t, 0, v, fmt, 0, end);
    PrintSpells(env, t, 0, v, fmt, 0, end);
    MarkIsSkipped(t);
    assert Next(t, 0, 0) && Blank(t, end, |t| - 1);
    SpelledTextIsRead(env, t, toTheEnd, Nulled(env, v), end);
    NulledNesting(env, v);
  }

  /** The round trip is exact if and only if the nesting is within the limit and every number is finite. */
  lemma RoundTripIff(env: Numbers, v: Value, fmt: bool, toTheEnd: bool)
    requires NumbersOk(env)
    ensures Terminated(Printed(env, v, fmt))
    ensures ParseText(env, Printed(env, v, fmt), toTheEnd) == Parsed(v, |Print(env, v, fmt, 0)|)
            <==> Nesting(v) <= 1000 && Finite(env, v)
  {
    PrintThenParse(env, v, fmt, toTheEnd);
    NulledIffFinite(env, v);
  }

  /** Different trees have different texts, and a formatted text is no unformatted text of another tree. */
  lemma PrintIsInjective(env: Numbers, v: Value, fmt: bool, w: Value, fmt': bool)
    requires NumbersOk(env) && Finite(env, v) && Finite(env, w)
    requires Nesting(v) <= NESTING_LIMIT && Nesting(w) <= NESTING_LIMIT
    requires Print(env, v, fmt, 0) == Print(env, w, fmt', 0)
    ensures v == w
  {
    RoundTripIff(env, v, fmt, true);
    RoundTripIff(env, w, fmt', true);
  }

  // ---------------------------------------------------------------- what was parsed can be printed and parsed again

  /** Any accepted text: printing what was read and reading it again changes nothing but infinities to null. */
  lemma ParseThenPrint(env: Numbers, t: seq<Byte>, toTheEnd: bool, fmt: bool)
    requires NumbersOk(env) && Terminated(t) && ParseText(env, t, toTheEnd).Parsed?
    ensures var v := ParseText(env, t, toTheEnd).value;
            && Terminated(Printed(env, v, fmt))
            && ParseText(env, Printed(env, v, fmt), true) == Parsed(Nulled(env, v), |Print(env, v, fmt, 0)|)
  {
    var v := ParseText(env, t, toTheEnd).value;
    ReadTextIsSpelled(env, t, toTheEnd);
    PrintThenParse(env, v, fmt, true);
  }
}
