/** The parser as cJSON runs it: over a buffer with an offset and a depth that it moves in place. */
module JsonParseBuffer {
  import opened Options
  import opened Seals
  import opened JsonText
  import opened JsonStrings
  import opened JsonValues
  import opened JsonParser
  import opened JsonList
  import opened JsonTrees
  import opened JsonBuild

  /** The first half of utf16_literal_to_utf8: the code point, and the length or 0 for a bad literal. */
  method ReadLiteral(t: seq<Byte>, p: nat, end: nat) returns (codepoint: nat, length: nat)
    requires p <= end <= |t|
    ensures var l := Utf16(t, p, end);
            if l.BadLiteral? then length == 0 else length == l.length && codepoint == l.codepoint
  {
    codepoint, length := 0, 0;
    if end - p < 6 {
      return;
    }
    codepoint := ParseHex4(t, p + 2);
    if 0xDC00 <= codepoint <= 0xDFFF {
      return;
    }
    if 0xD800 <= codepoint <= 0xDBFF {
      if end - (p + 6) < 6 || t[p + 6] != BACKSLASH || t[p + 7] != LOWER_U {
        return;
      }
      var second := ParseHex4(t, p + 8);
      if second < 0xDC00 || second > 0xDFFF {
        return;
      }
      codepoint := 0x10000 + (codepoint - 0xD800) * 0x400 + (second - 0xDC00);
      length := 12;
    } else {
      length := 6;
    }
  }

  /** utf16_literal_to_utf8: converts the literal at p and writes it to output from index n on. */
  method Utf16ToUtf8(t: seq<Byte>, p: nat, end: nat, output: array<Byte>, n: nat) returns (length: nat, n': nat)
    requires p <= end <= |t|
    requires var l := Utf16(t, p, end); l.Literal? ==> n + |Utf8(l.codepoint)| <= output.Length
    requires n <= output.Length
    modifies output
    ensures var l := Utf16(t, p, end);
            if l.BadLiteral? then length == 0
            else
              && length == l.length && n' == n + |Utf8(l.codepoint)| <= output.Length
              && output[..n'] == old(output[..n]) + Utf8(l.codepoint)
  {
    var codepoint;
    codepoint, length := ReadLiteral(t, p, end);
    n' := n;
    if length > 0 {
      n' := Encode(codepoint, output, n);
    }
  }

  lemma EncodingIs(c: nat, s: seq<Byte>)
    requires c <= 0x10FFFF && |s| == |Utf8(c)| && s[0] == FirstByteMark(|s|) + Shift(c, |s| - 1)
    requires forall j :: 1 <= j < |s| ==> s[j] == 0x80 + Shift(c, |s| - 1 - j) % 0x40
    ensures s == Utf8(c)
  {
    Utf8ByShifts(c);
    var e := Utf8(c);
    assert forall j :: 0 <= j < |s| ==> s[j] == e[j];
  }

  method Encode(c: nat, output: array<Byte>, n: nat) returns (n': nat)
    requires c <= 0x10FFFF && n + |Utf8(c)| <= output.Length
    modifies output
    ensures n' == n + |Utf8(c)| && output[..n'] == old(output[..n]) + Utf8(c)
  {
    var size, mark := 1, 0;
    if c < 0x80 {
    } else if c < 0x800 {
      size, mark := 2, 0xC0;
    } else if c < 0x10000 {
      size, mark := 3, 0xE0;
    } else {
      size, mark := 4, 0xF0;
    }
    Utf8ByShifts(c);
    EncodeBytes(c, size, mark, output, n);
    n' := n + size;
    EncodingIs(c, output[n..n']);
    assert output[..n'] == output[..n] + output[n..n'];
  }

  /** The encoding loop of utf16_literal_to_utf8, from the last byte to the first. */
  method EncodeBytes(c: nat, size: nat, mark: nat, output: array<Byte>, n: nat)
    requires size > 0 && n + size <= output.Length && mark + Shift(c, size - 1) < 0x100
    modifies output
    ensures output[..n] == old(output[..n])
    ensures output[n] == mark + Shift(c, size - 1)
    ensures forall j :: n < j < n + size ==> output[j] == 0x80 + Shift(c, size - 1 - (j - n)) % 0x40
  {
    var codepoint := c;
    var position := size - 1;
    while position > 0
      invariant 0 <= position < size && codepoint == Shift(c, size - 1 - position)
      invariant output[..n] == old(output[..n])
      invariant forall j :: n + position < j < n + size ==> output[j] == 0x80 + Shift(c, size - 1 - (j - n)) % 0x40
    {
      output[n + position] := 0x80 + codepoint % 0x40;
      codepoint := codepoint / 0x40;
      position := position - 1;
    }
    output[n] := mark + codepoint;
  }

  /** The first pass of parse_string: the closing quote, and the number of bytes that escapes hide. */
  method FindEnd(t: seq<Byte>, start: nat) returns (end: Option<nat>, skipped: nat)
    requires start <= |t|
    ensures end == StringEnd(t, start)
    ensures end.Some? ==> Reached(t, start, end.value) && end.value - start == Kept(t, start, start, end.value) + skipped
  {
    var e := start;
    skipped := 0;
    while e < |t| && t[e] != QUOTE
      invariant start <= e <= |t| && Reached(t, start, e)
      invariant StringEnd(t, e) == StringEnd(t, start)
      invariant e - start == Kept(t, start, start, e) + skipped
    {
      if t[e] == BACKSLASH {
        if e + 1 >= |t| {
          return None, skipped;
        }
        skipped := skipped + 1;
        e := e + 1;
      }
      e := e + 1;
    }
    end := if e >= |t| then None else Some(e);
  }

  lemma PrependTwice(a: seq<Byte>, b: seq<Byte>, d: Decoded)
    ensures Prepend(a + b, d) == Prepend(a, Prepend(b, d))
  {
    if d.Decoded? {
      assert (a + b) + d.bytes == a + (b + d.bytes);
    }
  }

  /** How far the contents of a literal reach that the second pass has consumed. */
  function Upto(p: nat, end: nat): nat {
    if p <= end then p else end
  }

  /** One escape of the second pass: `length` is 0 for a bad one. */
  method UnescapeOne(t: seq<Byte>, start: nat, p: nat, end: nat, output: array<Byte>, n: nat)
    returns (length: nat, n': nat)
    requires start <= p < end < |t| && Reached(t, start, end) && t[p] == BACKSLASH
    requires n + Kept(t, start, p, end) < output.Length
    modifies output
    ensures length == 0 ==> DecodeEscape(t, p, end) == BadEscape(p)
    ensures length > 0 ==>
              && p + length <= end + 1
              && n' + Kept(t, start, Upto(p + length, end), end) <= n + Kept(t, start, p, end)
              && Prepend(output[..n'], Decode(t, p + length, end)) == Prepend(old(output[..n]), DecodeEscape(t, p, end))
  {
    n' := n;
    if t[p + 1] == LOWER_U {
      var l := Utf16(t, p, end);
      if l.Literal? {
        LiteralFits(t, start, p, end);
        KeptSplit(t, start, p, p + l.length, end);
        PrependTwice(output[..n], Utf8(l.codepoint), Decode(t, p + l.length, end));
      }
      length, n' := Utf16ToUtf8(t, p, end, output, n);
    } else {
      var b := JsonStrings.Unescape(t[p + 1]);
      length := 0;
      if b.Some? {
        EscapeFits(t, start, p, end);
        KeptSplit(t, start, p, Upto(p + 2, end), end);
        PrependTwice(output[..n], [b.value], Decode(t, p + 2, end));
        output[n] := b.value;
        length, n' := 2, n + 1;
        assert output[..n'] == old(output[..n]) + [b.value];
      }
    }
  }

  /** One plain byte of the second pass. */
  method CopyByte(t: seq<Byte>, start: nat, p: nat, end: nat, output: array<Byte>, n: nat)
    requires start <= p < end < |t| && t[p] != BACKSLASH
    requires n + Kept(t, start, p, end) < output.Length
    modifies output
    ensures n + 1 + Kept(t, start, p + 1, end) <= n + Kept(t, start, p, end)
    ensures Prepend(output[..n + 1], Decode(t, p + 1, end)) == Prepend(old(output[..n]), Decode(t, p, end))
  {
    PlainFits(t, start, p);
    KeptSplit(t, start, p, p + 1, end);
    PrependTwice(output[..n], [t[p]], Decode(t, p + 1, end));
    output[n] := t[p];
    assert output[..n + 1] == old(output[..n]) + [t[p]];
  }

  /** The second pass of parse_string, into a buffer of the size that the first pass asked for. */
  method SecondPass(t: seq<Byte>, start: nat, end: nat, output: array<Byte>) returns (bad: Option<nat>, n: nat)
    requires start <= end < |t| && Reached(t, start, end)
    requires Kept(t, start, start, end) < output.Length
    modifies output
    ensures var d := Decode(t, start, end);
            if d.BadEscape? then bad == Some(d.at)
            else bad == None && n < output.Length && output[..n] == d.bytes
  {
    var p := start;
    n := 0;
    while p < end
      invariant start <= p <= end + 1
      invariant n + Kept(t, start, Upto(p, end), end) < output.Length
      invariant Prepend(output[..n], Decode(t, p, end)) == Decode(t, start, end)
      decreases end + 1 - p
    {
      if t[p] != BACKSLASH {
        CopyByte(t, start, p, end, output, n);
        p, n := p + 1, n + 1;
      } else {
        var length, n' := UnescapeOne(t, start, p, end, output, n);
        if length == 0 {
          return Some(p), n;
        }
        p, n := p + length, n';
      }
    }
    bad := None;
  }

  // ---------------------------------------------------------------- lists that grow at their end

  function JoinItems(items: Items, more: Items): Items {
    match items
    case Nil => more
    case Cons(head, tail) => Cons(head, JoinItems(tail, more))
  }

  function JoinMembers(members: Members, more: Members): Members {
    match members
    case End => more
    case Member(k, w, rest) => Member(k, w, JoinMembers(rest, more))
  }

  lemma {:induction false} AppendThenJoinItems(items: Items, v: Value, more: Items)
    ensures JoinItems(AppendItem(items, v), more) == JoinItems(items, Cons(v, more))
    ensures JoinItems(items, Cons(v, Nil)) == AppendItem(items, v)
  {
    if items.Cons? {
      AppendThenJoinItems(items.tail, v, more);
    }
  }

  lemma {:induction false} AppendThenJoinMembers(members: Members, key: CString, v: Value, more: Members)
    ensures JoinMembers(AppendMember(members, key, v), more) == JoinMembers(members, Member(key, v, more))
    ensures JoinMembers(members, Member(key, v, End)) == AppendMember(members, key, v)
  {
    if members.Member? {
      AppendThenJoinMembers(members.rest, key, v, more);
    }
  }

  /** What a list that is already parsed makes of the result for its rest. */
  function AfterItems(items: Items, r: Parsed<Items>): Parsed<Items> {
    if r.Failed? then r else Parsed(JoinItems(items, r.value), r.pos)
  }

  function AfterMembers(members: Members, r: Parsed<Members>): Parsed<Members> {
    if r.Failed? then r else Parsed(JoinMembers(members, r.value), r.pos)
  }

  ghost predicate ValueIs(env: Numbers, t: seq<Byte>, p: nat, depth: nat, r: Parsed<Value>)
    requires NumbersOk(env) && Terminated(t) && p < |t|
  {
    forall seal: Seal {:trigger Broken(seal)} :: r == ParseValue(env, t, p, depth)
  }

  ghost predicate MemberIs(env: Numbers, t: seq<Byte>, p: nat, depth: nat, r: Parsed<(CString, Value)>)
    requires NumbersOk(env) && Terminated(t) && p < |t|
  {
    forall seal: Seal {:trigger Broken(seal)} :: r == ParseMember(env, t, p, depth)
  }

  /** The outcome of an array whose loop stands at offset p: before an element, or after the last one. */
  ghost predicate ItemsFrom(env: Numbers, t: seq<Byte>, p: nat, depth: nat, items: Items, more: bool, r: Parsed<Items>)
    requires NumbersOk(env) && Terminated(t) && p < |t| && (more ==> p + 1 < |t|)
  {
    forall seal: Seal {:trigger Broken(seal)} ::
      r == if more then AfterItems(items, ParseItems(env, t, Skip(t, p + 1), depth))
           else if t[p] == CLOSE_BRACKET then Parsed(items, p + 1)
           else Failed(p)
  }

  ghost predicate MembersFrom(env: Numbers, t: seq<Byte>, p: nat, depth: nat, members: Members, more: bool,
                              r: Parsed<Members>)
    requires NumbersOk(env) && Terminated(t) && p < |t| && (more ==> p + 1 < |t|)
  {
    forall seal: Seal {:trigger Broken(seal)} ::
      r == if more then AfterMembers(members, ParseMembers(env, t, Skip(t, p + 1), depth))
           else if t[p] == CLOSE_BRACE then Parsed(members, p + 1)
           else Failed(p)
  }

  // The loops start one byte before a place that the whitespace skip has already reached.

  lemma StepBackItems(env: Numbers, t: seq<Byte>, q: nat, depth: nat)
    requires NumbersOk(env) && Terminated(t) && 0 < q < |t| && (t[q] > SPACE || q == |t| - 1)
    ensures ItemsFrom(env, t, q - 1, depth, Nil, true, ParseItems(env, t, q, depth))
  {
    assert Skip(t, q) == q;
  }

  lemma StepBackMembers(env: Numbers, t: seq<Byte>, q: nat, depth: nat)
    requires NumbersOk(env) && Terminated(t) && 0 < q < |t| && (t[q] > SPACE || q == |t| - 1)
    ensures MembersFrom(env, t, q - 1, depth, End, true, ParseMembers(env, t, q, depth))
  {
    assert Skip(t, q) == q;
  }

  /** One turn of the loop over the elements of an array. */
  lemma ItemsTurn(env: Numbers, t: seq<Byte>, p: nat, depth: nat, items: Items, v: Parsed<Value>, all: Parsed<Items>)
    requires NumbersOk(env) && Terminated(t) && p + 1 < |t|
    requires ValueIs(env, t, Skip(t, p + 1), depth, v) && ItemsFrom(env, t, p, depth, items, true, all)
    ensures v.Failed? ==> all == Failed(v.pos)
    ensures v.Parsed? ==>
              && p < v.pos < |t|
              && var q := Skip(t, v.pos);
                 (t[q] == COMMA ==> q + 1 < |t|)
                 && ItemsFrom(env, t, q, depth, AppendItem(items, v.value), t[q] == COMMA, all)
  {
    assert Broken(Seal);
    if v.Parsed? {
      var q := Skip(t, v.pos);
      AppendThenJoinItems(items, v.value, Nil);
      if t[q] == COMMA {
        var r := ParseItems(env, t, Skip(t, q + 1), depth);
        if r.Parsed? {
          AppendThenJoinItems(items, v.value, r.value);
        }
      }
    }
  }

  /** One turn of the loop over the members of an object. */
  lemma MembersTurn(env: Numbers, t: seq<Byte>, p: nat, depth: nat, members: Members, m: Parsed<(CString, Value)>,
                    all: Parsed<Members>)
    requires NumbersOk(env) && Terminated(t) && p + 1 < |t|
    requires MemberIs(env, t, Skip(t, p + 1), depth, m) && MembersFrom(env, t, p, depth, members, true, all)
    ensures m.Failed? ==> all == Failed(m.pos)
    ensures m.Parsed? ==>
              && p < m.pos < |t|
              && var q := Skip(t, m.pos);
                 (t[q] == COMMA ==> q + 1 < |t|)
                 && MembersFrom(env, t, q, depth, AppendMember(members, m.value.0, m.value.1), t[q] == COMMA, all)
  {
    assert Broken(Seal);
    if m.Parsed? {
      var q := Skip(t, m.pos);
      AppendThenJoinMembers(members, m.value.0, m.value.1, End);
      if t[q] == COMMA {
        var r := ParseMembers(env, t, Skip(t, q + 1), depth);
        if r.Parsed? {
          AppendThenJoinMembers(members, m.value.0, m.value.1, r.value);
        }
      }
    }
  }

  lemma ItemsEnd(env: Numbers, t: seq<Byte>, p: nat, depth: nat, items: Items, all: Parsed<Items>)
    requires NumbersOk(env) && Terminated(t) && p < |t| && ItemsFrom(env, t, p, depth, items, false, all)
    ensures all == if t[p] == CLOSE_BRACKET then Parsed(items, p + 1) else Failed(p)
  {
    assert Broken(Seal);
  }

  lemma MembersEnd(env: Numbers, t: seq<Byte>, p: nat, depth: nat, members: Members, all: Parsed<Members>)
    requires NumbersOk(env) && Terminated(t) && p < |t| && MembersFrom(env, t, p, depth, members, false, all)
    ensures all == if t[p] == CLOSE_BRACE then Parsed(members, p + 1) else Failed(p)
  {
    assert Broken(Seal);
  }

  // ---------------------------------------------------------------- the buffer

  function KeywordKind(v: Value): nat {
    if v.Null? then CJSON_NULL else if v.False? then CJSON_FALSE else CJSON_TRUE
  }

  /** `content` is the text with its terminator. */
  class ParseBuffer {
    const content: seq<Byte>
    var offset: nat
    var depth: nat

    constructor (content: seq<Byte>)
      ensures this.content == content && offset == 0 && depth == 0
    {
      this.content := content;
      offset, depth := 0, 0;
    }

    /** A whitespace skip may run over the terminator, and then steps back onto it. */
    method SkipWhitespace()
      requires offset < |content|
      modifies this`offset
      ensures offset == Skip(content, old(offset))
    {
      while offset < |content| && content[offset] <= SPACE
        invariant old(offset) <= offset <= |content|
        invariant offset < |content| ==> Skip(content, offset) == Skip(content, old(offset))
        invariant offset == |content| ==> Skip(content, old(offset)) == |content| - 1
      {
        offset := offset + 1;
      }
      if offset == |content| {
        offset := offset - 1;
      }
    }

    /** parse_string: fills the item with the text. */
    method ParseString(item: Item) returns (ok: bool)
      requires Terminated(content) && offset < |content|
      modifies this`offset, item`data
      ensures var r := JsonParser.ParseString(content, old(offset));
              && offset == r.pos && ok == r.Parsed?
              && (ok ==> item.data == old(item.data).(kind := CJSON_STRING, text := Some(r.value)))
    {
      var start := offset + 1;
      ok := false;
      if content[offset] != QUOTE {
        offset := start;
        return;
      }
      var end, skipped := FindEnd(content, start);
      if end.None? {
        offset := start;
        return;
      }
      var allocation := end.value - offset - skipped;
      var output := new Byte[allocation + 1];
      var bad, n := SecondPass(content, start, end.value, output);
      if bad.Some? {
        offset := bad.value;
        return;
      }
      output[n] := 0;
      ok := true;
      item.data := item.data.(kind := CJSON_STRING, text := Some(Cut(output[..n])));
      offset := end.value + 1;
    }

    /** The copy loop of parse_number. */
    method CopyNumber(text: array<Byte>) returns (i: nat)
      requires offset < |content| && text.Length == NUMBER_ROOM + 1
      modifies text
      ensures i <= NUMBER_ROOM && text[..i] == NumberSpan(content, offset, NUMBER_ROOM)
    {
      i := 0;
      while i < NUMBER_ROOM && offset + i < |content| && IsNumberByte(content[offset + i])
        invariant 0 <= i <= NUMBER_ROOM && offset + i <= |content|
        invariant text[..i] == content[offset..offset + i]
        invariant forall j :: offset <= j < offset + i ==> IsNumberByte(content[j])
      {
        text[i] := content[offset + i];
        i := i + 1;
      }
      SpanIs(content, offset, i, NUMBER_ROOM);
      text[i] := 0;
    }

    /** parse_number: fills the item with the number. */
    method ParseNumber(env: Numbers, item: Item) returns (ok: bool)
      requires NumbersOk(env) && Terminated(content) && offset < |content|
      modifies this`offset, item`data
      ensures var r := JsonParser.ParseNumber(env, content, old(offset));
              && offset == r.pos && ok == r.Parsed?
              && (ok ==> r.value.Number? && item.data == old(item.data).(kind := CJSON_NUMBER, number := r.value.n))
    {
      var text := new Byte[NUMBER_ROOM + 1];
      var i := CopyNumber(text);
      var scan := env.scan(text[..i]);
      if scan.used == 0 {
        return false;
      }
      ok := true;
      item.data := item.data.(kind := CJSON_NUMBER, number := scan.number);
      offset := offset + scan.used;
    }

    /** A value without children. */
    method ParseScalar(env: Numbers, item: Item) returns (ok: bool, ghost c: Tree)
      requires NumbersOk(env) && Terminated(content) && offset < |content| && item.child == null
      requires content[offset] != OPEN_BRACKET && content[offset] != OPEN_BRACE
      modifies this`offset, item`data
      ensures var r := JsonParser.ParseValue(env, content, old(offset), depth);
              && offset == r.pos && ok == r.Parsed?
              && (ok ==> Built(item, c, r.value, old(item.data.key)) && Repr(c) == {item})
    {
      var k := Keyword(content, offset);
      ok, c := false, Tree(item, item.data, Last);
      if k.Parsed? {
        ok, offset := true, k.pos;
        item.data := item.data.(kind := KeywordKind(k.value));
      } else if content[offset] == QUOTE {
        ok := ParseString(item);
      } else if content[offset] == MINUS || IsDigit(content[offset]) {
        ok := ParseNumber(env, item);
      }
      if ok {
        c := Tree(item, item.data, Last);
        NothingIsStrung();
        Assemble(c);
        ScalarDenotes(c, JsonParser.ParseValue(env, content, old(offset), depth).value);
      }
    }

    /** parse_value: the item becomes the root of a tree of new items for the value. */
    method ParseValue(env: Numbers, item: Item) returns (ok: bool, ghost c: Tree)
      requires NumbersOk(env) && Terminated(content) && offset < |content| && item.child == null
      modifies this, item`data, item`child
      ensures var r := JsonParser.ParseValue(env, content, old(offset), old(depth));
              && offset == r.pos && ok == r.Parsed?
              && (ok ==> depth == old(depth) && Built(item, c, r.value, old(item.data.key)))
      ensures ok ==> fresh(ReprAll(c.kids))
      decreases |content| - offset, 1
    {
      if content[offset] == OPEN_BRACKET {
        ok, c := ParseArray(env, item);
      } else if content[offset] == OPEN_BRACE {
        ok, c := ParseObject(env, item);
      } else {
        ok, c := ParseScalar(env, item);
      }
    }

    /** An element, from the byte in front of it to the byte after the next blanks; r is what the function gives. */
    method ParseElement(env: Numbers, item: Item) returns (ok: bool, ghost c: Tree, ghost r: Parsed<Value>)
      requires NumbersOk(env) && Terminated(content) && offset + 1 < |content| && item.child == null
      modifies this, item`data, item`child
      ensures ValueIs(env, content, Skip(content, old(offset) + 1), old(depth), r)
      ensures ok == r.Parsed? && (ok ==> old(offset) < r.pos < |content|)
      ensures offset == if ok then Skip(content, r.pos) else r.pos
      ensures ok ==> depth == old(depth) && Built(item, c, r.value, old(item.data.key)) && fresh(ReprAll(c.kids))
      decreases |content| - offset - 1, 2
    {
      offset := offset + 1;
      SkipWhitespace();
      r := JsonParser.ParseValue(env, content, offset, depth);
      ok, c := ParseValue(env, item);
      if ok {
        assert allocated(Repr(c));
        SkipWhitespace();
      }
    }

    /** One turn of the loop of parse_array: a new item, behind the last one, is filled. */
    method NextElement(env: Numbers, head: Item?, last: Item?, ghost done: Trees)
      returns (ok: bool, head': Item?, item: Item, ghost c: Tree, ghost r: Parsed<Value>)
      requires NumbersOk(env) && Terminated(content) && offset + 1 < |content|
      requires Growing(head, last, done)
      modifies this, ReprAll(done)`next
      ensures ValueIs(env, content, Skip(content, old(offset) + 1), old(depth), r)
      ensures ok == r.Parsed? && (ok ==> old(offset) < r.pos < |content|)
      ensures offset == if ok then Skip(content, r.pos) else r.pos
      ensures ok ==> depth == old(depth) && Denotes(c, r.value) && fresh(Repr(c))
      ensures ok ==> Growing(head', item, Snoc(done, c)) && ReprAll(Snoc(done, c)) == ReprAll(done) + Repr(c)
      decreases |content| - offset - 1, 3
    {
      ghost var others := ReprAll(done);
      assert allocated(others);
      ghost var before;
      item, head', before := StartItem(head, last, done);
      ok, c, r := ParseElement(env, item);
      if ok {
        assert others !! Repr(c);
        Grows(head', done, c, before);
      }
    }

    /** The loop of parse_array, from the byte in front of the first element to the closing bracket. */
    method ParseElements(env: Numbers, ghost all: Parsed<Items>)
      returns (ok: bool, head: Item?, last: Item?, ghost done: Trees)
      requires NumbersOk(env) && Terminated(content) && offset + 1 < |content|
      requires ItemsFrom(env, content, offset, depth, Nil, true, all)
      modifies this
      ensures ok == all.Parsed?
      ensures ok ==> offset + 1 == all.pos && depth == old(depth)
      ensures !ok ==> offset == all.pos
      ensures ok ==> fresh(ReprAll(done)) && Growing(head, last, done) && DenoteItems(done, all.value)
      decreases |content| - offset - 1, 4
    {
      head, last, done := null, null, Last;
      ghost var items := Nil;
      NothingIsStrung();
      NothingDenotes();
      var more := true;
      while more
        invariant old(offset) <= offset < |content| && depth == old(depth)
        invariant more ==> offset + 1 < |content|
        invariant ItemsFrom(env, content, offset, depth, items, more, all)
        invariant fresh(ReprAll(done)) && Growing(head, last, done)
        invariant DenoteItems(done, items)
        decreases more, |content| - offset
      {
        ghost var p := offset;
        ghost var c, r;
        var parsed, item;
        parsed, head, item, c, r := NextElement(env, head, last, done);
        ItemsTurn(env, content, p, old(depth), items, r, all);
        if !parsed {
          return false, head, last, done;
        }
        DenoteOneMoreItem(done, items, c, r.value);
        last, done, items := item, Snoc(done, c), AppendItem(items, r.value);
        more := content[offset] == COMMA;
      }
      ItemsEnd(env, content, offset, depth, items, all);
      ok := content[offset] == CLOSE_BRACKET;
    }

    /** parse_array */
    method ParseArray(env: Numbers, item: Item) returns (ok: bool, ghost c: Tree)
      requires NumbersOk(env) && Terminated(content) && offset < |content| && content[offset] == OPEN_BRACKET
      requires item.child == null
      modifies this, item`data, item`child
      ensures var r := JsonParser.ParseArray(env, content, old(offset), old(depth));
              && offset == r.pos && ok == r.Parsed?
              && (ok ==> depth == old(depth) && Built(item, c, r.value, old(item.data.key)))
      ensures ok ==> fresh(ReprAll(c.kids))
      decreases |content| - offset, 0
    {
      ok, c := false, Tree(item, item.data, Last);
      if depth >= NESTING_LIMIT {
        return;
      }
      ghost var r := JsonParser.ParseArray(env, content, offset, depth);
      depth := depth + 1;
      offset := offset + 1;
      SkipWhitespace();
      var head: Item?, last: Item? := null, null;
      ghost var done := Last;
      NothingIsStrung();
      NothingDenotes();
      if content[offset] != CLOSE_BRACKET {
        // step back to the byte in front of the first element
        ghost var all := ParseItems(env, content, offset, depth);
        StepBackItems(env, content, offset, depth);
        offset := offset - 1;
        ok, head, last, done := ParseElements(env, all);
        if !ok {
          return;
        }
      }
      GrowingOpens(head, last, done);
      depth := depth - 1;
      item.data := item.data.(kind := CJSON_ARRAY);
      item.child := head;
      offset := offset + 1;
      ok, c := true, Tree(item, item.data, done);
      Assemble(c);
      ListDenotes(c, r.value);
    }

    /** The name of a child and its colon, from the byte in front of the name on. */
    method ParseKey(item: Item) returns (ok: bool)
      requires Terminated(content) && offset + 1 < |content|
      modifies this`offset, item`data
      ensures var r := JsonParser.ParseString(content, Skip(content, old(offset) + 1));
              if r.Failed? then !ok && offset == r.pos
              else
                && offset == Skip(content, r.pos) < |content|
                && ok == (content[offset] == COLON) && (ok ==> item.data.key == Some(r.value))
    {
      offset := offset + 1;
      SkipWhitespace();
      ok := ParseString(item);
      if ok {
        SkipWhitespace();
        // swap the text and the key, because the key was parsed
        item.data := item.data.(key := item.data.text, text := None);
        ok := content[offset] == COLON;
      }
    }

    /** A member, from the byte in front of its key to the byte after the next blanks. */
    method ParseMember(env: Numbers, item: Item) returns (ok: bool, ghost c: Tree, ghost r: Parsed<(CString, Value)>)
      requires NumbersOk(env) && Terminated(content) && offset + 1 < |content| && item.child == null
      modifies this, item`data, item`child
      ensures MemberIs(env, content, Skip(content, old(offset) + 1), old(depth), r)
      ensures ok == r.Parsed? && (ok ==> old(offset) < r.pos < |content|)
      ensures offset == if ok then Skip(content, r.pos) else r.pos
      ensures ok ==> depth == old(depth) && Built(item, c, r.value.1, Some(r.value.0)) && fresh(ReprAll(c.kids))
      decreases |content| - offset - 1, 3
    {
      ghost var p := Skip(content, offset + 1);
      r := JsonParser.ParseMember(env, content, p, depth);
      c := Tree(item, item.data, Last);
      ok := ParseKey(item);
      if ok {
        ghost var e;
        ok, c, e := ParseElement(env, item);
        assert Broken(Seal);
      }
    }

    /** One turn of the loop of parse_object. */
    method NextMember(env: Numbers, head: Item?, last: Item?, ghost done: Trees)
      returns (ok: bool, head': Item?, item: Item, ghost c: Tree, ghost r: Parsed<(CString, Value)>)
      requires NumbersOk(env) && Terminated(content) && offset + 1 < |content|
      requires Growing(head, last, done)
      modifies this, ReprAll(done)`next
      ensures MemberIs(env, content, Skip(content, old(offset) + 1), old(depth), r)
      ensures ok == r.Parsed? && (ok ==> old(offset) < r.pos < |content|)
      ensures offset == if ok then Skip(content, r.pos) else r.pos
      ensures ok ==> depth == old(depth) && fresh(Repr(c)) && Denotes(c, r.value.1) && c.data.key == Some(r.value.0)
      ensures ok ==> Growing(head', item, Snoc(done, c)) && ReprAll(Snoc(done, c)) == ReprAll(done) + Repr(c)
      decreases |content| - offset - 1, 4
    {
      ghost var others := ReprAll(done);
      assert allocated(others);
      ghost var before;
      item, head', before := StartItem(head, last, done);
      ok, c, r := ParseMember(env, item);
      if ok {
        assert others !! Repr(c);
        Grows(head', done, c, before);
      }
    }

    /** The loop of parse_object, from the byte in front of the first key to the closing brace. */
    method ParseMemberList(env: Numbers, ghost all: Parsed<Members>)
      returns (ok: bool, head: Item?, last: Item?, ghost done: Trees)
      requires NumbersOk(env) && Terminated(content) && offset + 1 < |content|
      requires MembersFrom(env, content, offset, depth, End, true, all)
      modifies this
      ensures ok == all.Parsed?
      ensures ok ==> offset + 1 == all.pos && depth == old(depth)
      ensures !ok ==> offset == all.pos
      ensures ok ==> fresh(ReprAll(done)) && Growing(head, last, done) && DenoteMembers(done, all.value)
      decreases |content| - offset - 1, 5
    {
      head, last, done := null, null, Last;
      ghost var members := End;
      NothingIsStrung();
      NothingDenotes();
      var more := true;
      while more
        invariant old(offset) <= offset < |content| && depth == old(depth)
        invariant more ==> offset + 1 < |content|
        invariant MembersFrom(env, content, offset, depth, members, more, all)
        invariant fresh(ReprAll(done)) && Growing(head, last, done)
        invariant DenoteMembers(done, members)
        decreases more, |content| - offset
      {
        ghost var p := offset;
        ghost var c, r;
        var parsed, item;
        parsed, head, item, c, r := NextMember(env, head, last, done);
        MembersTurn(env, content, p, old(depth), members, r, all);
        if !parsed {
          return false, head, last, done;
        }
        DenoteOneMoreMember(done, members, c, r.value.0, r.value.1);
        last, done, members := item, Snoc(done, c), AppendMember(members, r.value.0, r.value.1);
        more := content[offset] == COMMA;
      }
      MembersEnd(env, content, offset, depth, members, all);
      ok := content[offset] == CLOSE_BRACE;
    }

    /** parse_object */
    method ParseObject(env: Numbers, item: Item) returns (ok: bool, ghost c: Tree)
      requires NumbersOk(env) && Terminated(content) && offset < |content| && content[offset] == OPEN_BRACE
      requires item.child == null
      modifies this, item`data, item`child
      ensures var r := JsonParser.ParseObject(env, content, old(offset), old(depth));
              && offset == r.pos && ok == r.Parsed?
              && (ok ==> depth == old(depth) && Built(item, c, r.value, old(item.data.key)))
      ensures ok ==> fresh(ReprAll(c.kids))
      decreases |content| - offset, 0
    {
      ok, c := false, Tree(item, item.data, Last);
      if depth >= NESTING_LIMIT {
        return;
      }
      ghost var r := JsonParser.ParseObject(env, content, offset, depth);
      depth := depth + 1;
      offset := offset + 1;
      SkipWhitespace();
      var head: Item?, last: Item? := null, null;
      ghost var done := Last;
      NothingIsStrung();
      NothingDenotes();
      if content[offset] != CLOSE_BRACE {
        // step back to the byte in front of the first key
        ghost var all := ParseMembers(env, content, offset, depth);
        StepBackMembers(env, content, offset, depth);
        offset := offset - 1;
        ok, head, last, done := ParseMemberList(env, all);
        if !ok {
          return;
        }
      }
      GrowingOpens(head, last, done);
      depth := depth - 1;
      item.data := item.data.(kind := CJSON_OBJECT);
      item.child := head;
      offset := offset + 1;
      ok, c := true, Tree(item, item.data, done);
      Assemble(c);
      ListDenotes(c, r.value);
    }

    /**
      cJSON_ParseWithOpts, for a fresh buffer: a tree of new items for the value, or null; `position` is the
      parse end or the error position.
     */
    method ParseWithOpts(env: Numbers, toTheEnd: bool) returns (item: Item?, position: nat, ghost c: Option<Tree>)
      requires NumbersOk(env) && Terminated(content) && offset == 0 && depth == 0
      modifies this
      ensures var r := ParseText(env, content, toTheEnd);
              && position == r.pos && (item == null <==> r.Failed?) && (item == null <==> c.None?)
              && (item != null ==> depth == 0 && Built(item, c.value, r.value, None))
      ensures item != null ==> fresh(Repr(c.value)) && item.next == null && item.prev == null
    {
      item := new Item();
      if 4 < |content| && content[0] == 0xEF && content[1] == 0xBB && content[2] == 0xBF {
        offset := offset + 3;
      }
      SkipWhitespace();
      var ok;
      ghost var t;
      ok, t := ParseValue(env, item);
      if ok && toTheEnd {
        assert allocated(Repr(t));
        SkipWhitespace();
        ok := content[offset] == 0;
      }
      position := if ok || offset < |content| then offset else |content| - 1;
      c := if ok then Some(t) else None;
      if !ok {
        item := null;
      }
    }
  }
}
