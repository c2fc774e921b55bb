/** The printer as cJSON runs it: into a buffer that grows while it is written, or must suffice as it is. */
module JsonPrintBuffer {
  import opened Seals
  import opened JsonText
  import opened JsonStrings
  import opened JsonValues
  import opened JsonRoundTrip

  const INT_MAX: nat := 0x7FFF_FFFF

  /**
    `allocates` says for which sizes the allocator succeeds. The bytes before `offset` are settled; what is
    written from there on ends in a zero byte, and update_offset settles it later.
   */
  class PrintBuffer {
    var buffer: array<Byte>
    var offset: nat
    var depth: nat
    const noalloc: bool
    const format: bool
    const allocates: nat -> bool

    constructor (buffer: array<Byte>, noalloc: bool, format: bool, allocates: nat -> bool)
      requires buffer.Length <= INT_MAX && (noalloc || buffer.Length > 0)
      ensures this.buffer == buffer && this.noalloc == noalloc && this.format == format && this.allocates == allocates
      ensures Valid() && Text() == [] && depth == 0
    {
      this.buffer, this.noalloc, this.format, this.allocates := buffer, noalloc, format, allocates;
      offset, depth := 0, 0;
    }

    ghost predicate Valid()
      reads this`buffer, this`offset
    {
      buffer.Length <= INT_MAX && (offset < buffer.Length || (noalloc && offset == 0))
    }

    /** What is settled. */
    ghost function Text(): seq<Byte>
      requires Valid()
      reads this`buffer, this`offset, buffer
    {
      buffer[..offset]
    }

    /** The number of bytes that the buffer has or may get. */
    ghost function Room(): nat
      reads this`buffer
    {
      if noalloc then buffer.Length else INT_MAX
    }

    /** No allocation fails, or none is made. */
    ghost predicate Reliable() {
      noalloc || forall n :: allocates(n)
    }

    /** ensure: room for `needed` bytes and one more, with the settled text kept. */
    method Ensure(needed: nat) returns (ok: bool)
      requires Valid()
      modifies this`buffer
      ensures ok ==> Valid() && Text() == old(Text()) && offset + needed < buffer.Length
      ensures ok ==> offset + needed + 1 <= old(Room()) == Room()
      ensures !ok && Reliable() ==> offset + needed + 1 > old(Room())
      ensures buffer == old(buffer) || (!noalloc && fresh(buffer))
      ensures ok ==> var total := offset + needed + 1;
                     if total <= old(buffer.Length) then buffer == old(buffer)
                     else buffer.Length == if total <= 0x3FFF_FFFF then 2 * total else 0x7FFF_FFFF
    {
      if (buffer.Length > 0 && offset >= buffer.Length) || needed > INT_MAX {
        return false;
      }
      var total := needed + offset + 1;
      if total <= buffer.Length {
        return true;
      }
      if noalloc {
        return false;
      }
      var size := total * 2;
      if total > INT_MAX / 2 {
        if total > INT_MAX {
          return false;
        }
        size := INT_MAX;
      }
      if !allocates(size) {
        buffer := new Byte[0];
        return false;
      }
      var bigger := new Byte[size];
      var i := 0;
      while i < offset + 1
        invariant 0 <= i <= offset + 1 && buffer == old(buffer)
        invariant bigger[..i] == buffer[..i]
      {
        bigger[i] := buffer[i];
        i := i + 1;
      }
      assert bigger[..offset] == bigger[..offset + 1][..offset] == buffer[..offset];
      buffer := bigger;
      ok := true;
    }

    /** Writes bytes from index `at` on. */
    method WriteAt(at: nat, s: seq<Byte>)
      requires at + |s| <= buffer.Length
      modifies buffer
      ensures buffer[..at + |s|] == old(buffer[..at]) + s
    {
      var i := 0;
      while i < |s|
        invariant 0 <= i <= |s|
        invariant buffer[..at + i] == old(buffer[..at]) + s[..i]
      {
        buffer[at + i] := s[i];
        i := i + 1;
      }
    }

    /** update_offset: a strlen from the offset on. `end` is where the zero byte is. */
    method UpdateOffset(ghost end: nat)
      requires offset <= end < buffer.Length && buffer[end] == 0
      requires forall i :: offset <= i < end ==> buffer[i] != 0
      modifies this`offset
      ensures offset == end
    {
      while buffer[offset] != 0
        invariant old(offset) <= offset <= end
        decreases end - offset
      {
        offset := offset + 1;
      }
    }

    /** Writes s behind the settled text and settles it; the code reserves `needed` bytes for it. */
    method Append(s: seq<Byte>, needed: nat) returns (ok: bool)
      requires Valid() && |s| <= needed
      modifies this`buffer, this`offset, buffer
      ensures ok ==> Valid() && Text() == old(Text()) + s
      ensures ok ==> old(offset) + needed + 1 <= old(Room()) == Room()
      ensures !ok && Reliable() ==> old(offset) + needed + 1 > old(Room())
      ensures buffer == old(buffer) || (!noalloc && fresh(buffer))
    {
      ok := Ensure(needed);
      if ok {
        WriteAt(offset, s);
        offset := offset + |s|;
      }
    }

    /** The text s and a zero byte stand behind what was settled before. */
    ghost predicate Pending(before: seq<Byte>, s: seq<Byte>)
      reads this`buffer, this`offset, buffer
    {
      && Valid() && |before| <= offset <= |before| + |s| < buffer.Length
      && buffer[..|before| + |s| + 1] == before + s + [0]
    }

    /** Writes s and a zero byte behind the settled text; the code reserves one byte more. */
    method Write(s: seq<Byte>) returns (ok: bool)
      requires Valid()
      modifies this`buffer, buffer
      ensures ok ==> Pending(old(Text()), s)
      ensures ok ==> old(offset) + |s| + 2 <= old(Room()) == Room()
      ensures !ok && Reliable() ==> old(offset) + |s| + 2 > old(Room())
      ensures buffer == old(buffer) || (!noalloc && fresh(buffer))
    {
      ok := Ensure(|s| + 1);
      if ok {
        WriteAt(offset, s + [0]);
        assert old(Text()) + (s + [0]) == old(Text()) + s + [0];
      }
    }

    /** What is pending becomes settled. */
    method Settle(ghost before: seq<Byte>, ghost s: seq<Byte>)
      requires Pending(before, s) && 0 !in s
      modifies this`offset
      ensures Valid() && Text() == before + s && offset < buffer.Length && buffer[offset] == 0
    {
      ghost var end := |before| + |s|;
      assert buffer[end] == (before + s + [0])[end];
      forall i | offset <= i < end
        ensures buffer[i] != 0
      {
        assert buffer[i] == (before + s + [0])[i] == s[i - |before|];
      }
      UpdateOffset(end);
      assert buffer[..end] == buffer[..end + 1][..end];
    }

    // ---------------------------------------------------------------- strings

    /** print_string_ptr. */
    method PrintString(s: CString) returns (ok: bool)
      requires Valid()
      modifies this`buffer, buffer
      ensures ok ==> Pending(old(Text()), Quoted(s))
      ensures ok ==> old(offset) + |Quoted(s)| + 2 <= old(Room()) == Room()
      ensures !ok && Reliable() ==> old(offset) + |Quoted(s)| + 2 > old(Room())
      ensures buffer == old(buffer) || (!noalloc && fresh(buffer))
    {
      var extra := CountEscapes(s);
      var length := |s| + extra;
      CountedLength(s);
      ok := Ensure(length + 3);
      if ok {
        WriteQuoted(s, extra, Escape(s));
      }
    }

    /** The literal itself, once there is room for it; e is the escaped string. */
    method WriteQuoted(s: CString, extra: nat, ghost e: seq<Byte>)
      requires Valid() && extra == Extra(s) && e == Escape(s) && |e| == |s| + extra && offset + |e| + 2 < buffer.Length
      modifies buffer
      ensures Pending(old(Text()), [QUOTE] + e + [QUOTE])
    {
      ghost var before := Text();
      ghost var quoted := [QUOTE] + e + [QUOTE];
      WriteAt(offset, [QUOTE]);
      WriteContents(s, extra, offset + 1, e);
      WriteAt(offset + 1 + (|s| + extra), [QUOTE, 0]);
      QuoteJoin(before, e);
      assert |before| + |quoted| + 1 == offset + 1 + |e| + 2;
    }

    method WriteContents(s: CString, extra: nat, start: nat, ghost e: seq<Byte>)
      requires extra == Extra(s) && e == Escape(s) && start + |e| <= buffer.Length
      modifies buffer
      ensures buffer[..start + |e|] == old(buffer[..start]) + e
    {
      if extra == 0 {
        NothingToEscape(s);
        WriteAt(start, s);
      } else {
        CopyEscaped(s, start);
      }
    }

    /** The copy loop of print_string_ptr for a string that has something to escape. */
    method CopyEscaped(s: CString, start: nat)
      requires start + |Escape(s)| <= buffer.Length
      modifies buffer
      ensures buffer[..start + |Escape(s)|] == old(buffer[..start]) + Escape(s)
    {
      ghost var before := buffer[..start];
      ghost var done: seq<Byte> := [];
      var at := start;
      var i := 0;
      while i < |s|
        invariant 0 <= i <= |s| && done == Escape(s[..i]) && at == start + |done|
        invariant at <= buffer.Length && buffer[..at] == before + done
      {
        EscapeNext(s, i);
        var e := EscapeByte(s[i]);
        WriteAt(at, e);
        assert before + done + e == before + (done + e);
        at := at + |e|;
        done := done + e;
        i := i + 1;
      }
      assert s[..|s|] == s;
    }

    // ---------------------------------------------------------------- values

    method PrintNumber(env: Numbers, n: nat) returns (ok: bool)
      requires Valid()
      modifies this`buffer, this`offset, buffer
      ensures ok ==> Pending(old(Text()), NumberPrint(env, n))
      ensures ok ==> old(offset) + |NumberPrint(env, n)| + 2 <= old(Room()) == Room()
      ensures !ok && Reliable() ==> old(offset) + |NumberPrint(env, n)| + 2 > old(Room())
      ensures buffer == old(buffer) || (!noalloc && fresh(buffer))
    {
      var text := NumberPrint(env, n);
      ok := Write(text);
      if ok {
        offset := offset + |text|;
      }
    }

    /** print_value: a success leaves exactly the pure text, and there is a success if and only if it fits. */
    method PrintValue(env: Numbers, v: Value) returns (ok: bool)
      requires Valid() && NumbersOk(env)
      modifies this`buffer, this`offset, this`depth, buffer
      ensures ok ==> Pending(old(Text()), Print(env, v, format, old(depth))) && depth == old(depth)
      ensures ok ==> old(offset) + |Print(env, v, format, old(depth))| + 2 <= old(Room()) == Room()
      ensures !ok && Reliable() ==>
                old(offset) + |Print(env, v, format, old(depth))| + 2 > old(Room())
      ensures buffer == old(buffer) || (!noalloc && fresh(buffer))
      decreases v, 0
    {
      ghost var s := Print(env, v, format, depth);
      match v {
        case Null => ok := Write(NULL_TEXT);
        case False => ok := Write(FALSE_TEXT);
        case True => ok := Write(TRUE_TEXT);
        case Number(n) => ok := PrintNumber(env, n);
        case String(s) => ok := PrintString(s);
        case Array(items) =>
          assert s == JsonValues.PrintArray(env, items, format, depth);
          ok := PrintArray(env, items);
        case Object(members) =>
          assert s == JsonValues.PrintObject(env, members, format, depth);
          ok := PrintObject(env, members);
      }
    }

    /** A value, printed and settled. */
    method PrintChild(env: Numbers, v: Value) returns (ok: bool)
      requires Valid() && NumbersOk(env)
      modifies this`buffer, this`offset, this`depth, buffer
      ensures ok ==> Valid() && Text() == old(Text()) + Print(env, v, format, old(depth)) && depth == old(depth)
      ensures ok ==> Room() == old(Room()) && offset + 2 <= Room() && offset < buffer.Length && buffer[offset] == 0
      ensures !ok && Reliable() ==>
                old(offset) + |Print(env, v, format, old(depth))| + 2 > old(Room())
      ensures buffer == old(buffer) || (!noalloc && fresh(buffer))
      decreases v, 1
    {
      ok := PrintValue(env, v);
      if ok {
        PrintHasNoZero(env, v, format, old(depth));
        Settle(old(Text()), Print(env, v, format, old(depth)));
      }
    }

    /** An element, and the comma after it. */
    method PrintItem(env: Numbers, items: Items) returns (ok: bool)
      requires Valid() && NumbersOk(env) && items.Cons?
      modifies this`buffer, this`offset, this`depth, buffer
      ensures ok ==> Valid() && depth == old(depth) && Room() == old(Room())
      ensures ok ==> Text() + PrintItems(env, items.tail, format, depth) == old(Text()) + PrintItems(env, items, format, depth)
      ensures !ok && Reliable() ==>
                old(offset) + |PrintItems(env, items, format, old(depth))| + 2 > old(Room())
      ensures buffer == old(buffer) || (!noalloc && fresh(buffer))
      decreases items, 0
    {
      ghost var before, s := Text(), Print(env, items.head, format, depth);
      ghost var sep, rest := ItemEnd(items.tail, format), PrintItems(env, items.tail, format, depth);
      assert before + s + sep + rest == before + (s + (sep + rest));
      ok := PrintChild(env, items.head);
      if ok && items.tail.Cons? {
        ok := Append(if format then [COMMA, SPACE] else [COMMA], (if format then 2 else 1) + 1);
      }
    }

    /** The loop of print_array. */
    method PrintElements(env: Numbers, items: Items) returns (ok: bool)
      requires Valid() && NumbersOk(env)
      modifies this`buffer, this`offset, this`depth, buffer
      ensures ok ==> Valid() && depth == old(depth) && Room() == old(Room())
      ensures ok ==> Text() + [CLOSE_BRACKET] == old(Text()) + PrintItems(env, items, format, depth)
      ensures !ok && Reliable() ==>
                old(offset) + |PrintItems(env, items, format, old(depth))| + 2 > old(Room())
      ensures buffer == old(buffer) || (!noalloc && fresh(buffer))
      decreases items, 1
    {
      ok := true;
      var rest := items;
      while rest.Cons?
        invariant rest == items || rest < items
        invariant Valid() && depth == old(depth) && Room() == old(Room())
        invariant Text() + PrintItems(env, rest, format, depth) == old(Text()) + PrintItems(env, items, format, depth)
        invariant buffer == old(buffer) || (!noalloc && fresh(buffer))
        decreases rest
      {
        ok := PrintItem(env, rest);
        if !ok {
          return;
        }
        rest := rest.tail;
      }
    }

    /** The same bytes are pending, whatever of them is counted as settled before. */
    lemma PendingFrom(before: seq<Byte>, s: seq<Byte>, settled: seq<Byte>, rest: seq<Byte>)
      requires Pending(settled, rest) && before + s == settled + rest && |before| <= |settled|
      ensures Pending(before, s)
    {
      assert |before| + |s| == |settled| + |rest|;
    }

    /** The elements and the closing bracket. */
    method PrintRest(env: Numbers, items: Items, ghost s: seq<Byte>) returns (ok: bool)
      requires Valid() && NumbersOk(env)
      requires IsItems(s, env, items, format, depth)
      modifies this`buffer, this`offset, this`depth, buffer
      ensures ok ==> Pending(old(Text()), s) && depth == old(depth)
      ensures ok ==> old(offset) + |s| + 2 <= old(Room()) == Room()
      ensures !ok && Reliable() ==> old(offset) + |s| + 2 > old(Room())
      ensures buffer == old(buffer) || (!noalloc && fresh(buffer))
      decreases items, 2
    {
      assert Broken(Seal);
      ok := PrintElements(env, items);
      if ok {
        ghost var settled := Text();
        ok := Write([CLOSE_BRACKET]);
        if ok {
          PendingFrom(old(Text()), s, settled, [CLOSE_BRACKET]);
        }
      }
    }

    method PrintArray(env: Numbers, items: Items) returns (ok: bool)
      requires Valid() && NumbersOk(env)
      modifies this`buffer, this`offset, this`depth, buffer
      ensures ok ==> Pending(old(Text()), JsonValues.PrintArray(env, items, format, old(depth))) && depth == old(depth)
      ensures ok ==> old(offset) + |JsonValues.PrintArray(env, items, format, old(depth))| + 2 <= old(Room()) == Room()
      ensures !ok && Reliable() ==> old(offset) + |JsonValues.PrintArray(env, items, format, old(depth))| + 2 > old(Room())
      ensures buffer == old(buffer) || (!noalloc && fresh(buffer))
      decreases items, 4
    {
      ghost var before := Text();
      ghost var rest := ArrayText(env, items, format, depth, before);
      ok := Append([OPEN_BRACKET], 1);
      if ok {
        ok := PrintInside(env, items, rest);
        if ok {
          PendingFrom(before, [OPEN_BRACKET] + rest, before + [OPEN_BRACKET], rest);
        }
      }
    }

    method PrintInside(env: Numbers, items: Items, ghost s: seq<Byte>) returns (ok: bool)
      requires Valid() && NumbersOk(env)
      requires IsItems(s, env, items, format, depth + 1)
      modifies this`buffer, this`offset, this`depth, buffer
      ensures ok ==> Pending(old(Text()), s) && depth == old(depth)
      ensures ok ==> old(offset) + |s| + 2 <= old(Room()) == Room()
      ensures !ok && Reliable() ==> old(offset) + |s| + 2 > old(Room())
      ensures buffer == old(buffer) || (!noalloc && fresh(buffer))
      decreases items, 3
    {
      depth := depth + 1;
      ok := PrintRest(env, items, s);
      if ok {
        depth := depth - 1;
      }
    }

    /** A string, printed and settled. */
    method PrintName(key: CString) returns (ok: bool)
      requires Valid()
      modifies this`buffer, this`offset, buffer
      ensures ok ==> Valid() && Room() == old(Room()) && Text() == old(Text()) + Quoted(key)
      ensures !ok && Reliable() ==> old(offset) + |Quoted(key)| + 2 > old(Room())
      ensures buffer == old(buffer) || (!noalloc && fresh(buffer))
    {
      ok := PrintString(key);
      if ok {
        EscapeHasNoZero(key);
        Settle(old(Text()), Quoted(key));
      }
    }

    /** The tabs in front of a key. */
    method PrintTabs() returns (ok: bool)
      requires Valid()
      modifies this`buffer, this`offset, buffer
      ensures ok ==> Valid() && Room() == old(Room()) && Text() == old(Text()) + if format then Tabs(depth) else []
      ensures !ok && Reliable() ==> old(offset) + (if format then depth else 0) + 1 > old(Room())
      ensures buffer == old(buffer) || (!noalloc && fresh(buffer))
    {
      ok := true;
      if format {
        ok := Append(Tabs(depth), depth);
      }
    }

    /** The tabs in front of a key, the key and its colon. */
    method PrintKey(key: CString) returns (ok: bool)
      requires Valid()
      modifies this`buffer, this`offset, buffer
      ensures ok ==> Valid() && Room() == old(Room())
      ensures ok ==> Text() == old(Text()) + (if format then Tabs(depth) else []) + Quoted(key) + Colon(format)
      ensures !ok && Reliable() ==>
                old(offset) + (if format then depth else 0) + |Quoted(key)| + |Colon(format)| + 2 > old(Room())
      ensures buffer == old(buffer) || (!noalloc && fresh(buffer))
    {
      ok := PrintTabs();
      if ok {
        ok := PrintName(key);
      }
      if ok {
        ok := Append(if format then [COLON, TAB] else [COLON], if format then 2 else 1);
      }
    }

    /** A value, the comma after it and the end of the line. */
    method PrintMemberValue(env: Numbers, members: Members) returns (ok: bool)
      requires Valid() && NumbersOk(env) && members.Member? && depth > 0
      modifies this`buffer, this`offset, this`depth, buffer
      ensures ok ==> Valid() && depth == old(depth) && Room() == old(Room())
      ensures ok ==> (Text() + Remaining(env, members.rest, format, depth)
                      == old(Text()) + PrintFromValue(env, members, format, depth))
      ensures !ok && Reliable() ==>
                old(offset) + |PrintFromValue(env, members, format, old(depth))| + 2 > old(Room())
      ensures buffer == old(buffer) || (!noalloc && fresh(buffer))
      decreases members, 0
    {
      ghost var s := Print(env, members.value, format, depth);
      FromValueText(env, members, format, depth, Text(), s);
      ok := PrintChild(env, members.value);
      if ok {
        var end := (if members.rest.Member? then [COMMA] else []) + (if format then [NEWLINE] else []);
        ok := Append(end, |end| + 1);
      }
    }

    /** One turn of the loop of print_object. */
    method PrintMember(env: Numbers, members: Members) returns (ok: bool)
      requires Valid() && NumbersOk(env) && members.Member? && depth > 0
      modifies this`buffer, this`offset, this`depth, buffer
      ensures ok ==> Valid() && depth == old(depth) && Room() == old(Room())
      ensures ok ==> (Text() + Remaining(env, members.rest, format, depth)
                      == old(Text()) + Remaining(env, members, format, depth))
      ensures !ok && Reliable() ==>
                old(offset) + |Remaining(env, members, format, old(depth))| + 2 > old(Room())
      ensures buffer == old(buffer) || (!noalloc && fresh(buffer))
      decreases members, 1
    {
      RemainingText(env, members, format, depth, Text());
      ok := PrintKey(members.key);
      if ok {
        ok := PrintMemberValue(env, members);
      }
    }

    /** The loop of print_object. */
    method PrintMemberList(env: Numbers, members: Members) returns (ok: bool)
      requires Valid() && NumbersOk(env) && depth > 0
      modifies this`buffer, this`offset, this`depth, buffer
      ensures ok ==> Valid() && depth == old(depth) && Room() == old(Room())
      ensures ok ==> (Text() + Remaining(env, End, format, depth)
                      == old(Text()) + Remaining(env, members, format, depth))
      ensures !ok && Reliable() ==>
                old(offset) + |Remaining(env, members, format, old(depth))| + 2 > old(Room())
      ensures buffer == old(buffer) || (!noalloc && fresh(buffer))
      decreases members, 2
    {
      ok := true;
      var rest := members;
      while rest.Member?
        invariant rest == members || rest < members
        invariant Valid() && depth == old(depth) && Room() == old(Room())
        invariant Text() + Remaining(env, rest, format, depth) == old(Text()) + Remaining(env, members, format, depth)
        invariant buffer == old(buffer) || (!noalloc && fresh(buffer))
        decreases rest
      {
        ok := PrintMember(env, rest);
        if !ok {
          return;
        }
        rest := rest.rest;
      }
    }

    /** The members and the closing brace. */
    method PrintMembersRest(env: Numbers, members: Members, ghost s: seq<Byte>) returns (ok: bool)
      requires Valid() && NumbersOk(env) && depth > 0
      requires IsRemaining(s, env, members, format, depth)
      modifies this`buffer, this`offset, this`depth, buffer
      ensures ok ==> Pending(old(Text()), s) && depth == old(depth)
      ensures ok ==> old(offset) + |s| + 2 <= old(Room()) == Room()
      ensures !ok && Reliable() ==> old(offset) + |s| + 2 > old(Room())
      ensures buffer == old(buffer) || (!noalloc && fresh(buffer))
      decreases members, 3
    {
      assert Broken(Seal);
      ok := PrintMemberList(env, members);
      if ok {
        ghost var settled := Text();
        var end := (if format then Tabs(depth - 1) else []) + [CLOSE_BRACE];
        ok := Write(end);
        if ok {
          PendingFrom(old(Text()), s, settled, end);
        }
      }
    }

    method PrintObject(env: Numbers, members: Members) returns (ok: bool)
      requires Valid() && NumbersOk(env)
      modifies this`buffer, this`offset, this`depth, buffer
      ensures ok ==> Pending(old(Text()), JsonValues.PrintObject(env, members, format, old(depth))) && depth == old(depth)
      ensures ok ==> old(offset) + |JsonValues.PrintObject(env, members, format, old(depth))| + 2 <= old(Room()) == Room()
      ensures !ok && Reliable() ==> old(offset) + |JsonValues.PrintObject(env, members, format, old(depth))| + 2 > old(Room())
      ensures buffer == old(buffer) || (!noalloc && fresh(buffer))
      decreases members, 5
    {
      ObjectText(env, members, format, depth);
      var start := [OPEN_BRACE] + (if format then [NEWLINE] else []);
      ghost var before, rest := Text(), Remaining(env, members, format, depth + 1);
      assert before + (start + rest) == before + start + rest;
      ok := Append(start, |start| + 1);
      if ok {
        ok := PrintMembersInside(env, members, rest);
        if ok {
          PendingFrom(before, start + rest, before + start, rest);
        }
      }
    }

    method PrintMembersInside(env: Numbers, members: Members, ghost s: seq<Byte>) returns (ok: bool)
      requires Valid() && NumbersOk(env)
      requires IsRemaining(s, env, members, format, depth + 1)
      modifies this`buffer, this`offset, this`depth, buffer
      ensures ok ==> Pending(old(Text()), s) && depth == old(depth)
      ensures ok ==> old(offset) + |s| + 2 <= old(Room()) == Room()
      ensures !ok && Reliable() ==> old(offset) + |s| + 2 > old(Room())
      ensures buffer == old(buffer) || (!noalloc && fresh(buffer))
      decreases members, 4
    {
      depth := depth + 1;
      ok := PrintMembersRest(env, members, s);
      if ok {
        depth := depth - 1;
      }
    }
  }

  /**
    cJSON_PrintPreallocated: the pure text if it and two more bytes fit, and a failure otherwise. The header
    asks for five more to be safe.
   */
  method PrintPreallocated(env: Numbers, v: Value, buffer: array<Byte>, format: bool) returns (ok: bool)
    requires NumbersOk(env) && buffer.Length <= INT_MAX
    modifies buffer
    ensures ok <==> |Print(env, v, format, 0)| + 2 <= buffer.Length
    ensures ok ==> buffer[..|Print(env, v, format, 0)| + 1] == Printed(env, v, format)
  {
    var p := new PrintBuffer(buffer, true, format, n => false);
    ok := p.PrintValue(env, v);
    if ok {
      assert [] + Print(env, v, format, 0) + [0] == Printed(env, v, format);
    }
  }

  /** print, for a first allocation of `capacity` bytes (256 in cJSON_Print). */
  method PrintAllocated(env: Numbers, v: Value, format: bool, capacity: nat, allocates: nat -> bool)
    returns (ok: bool, text: array<Byte>)
    requires NumbersOk(env) && 0 < capacity <= INT_MAX
    ensures ok ==> text[..] == Printed(env, v, format) && |text[..]| + 1 <= INT_MAX
    ensures (forall n :: allocates(n)) ==> (ok <==> |Printed(env, v, format)| + 1 <= INT_MAX)
  {
    text := new Byte[0];
    if !allocates(capacity) {
      return false, text;
    }
    var buffer := new Byte[capacity];
    var p := new PrintBuffer(buffer, false, format, allocates);
    ok := p.PrintChild(env, v);
    if !ok {
      return;
    }
    ghost var s := Print(env, v, format, 0);
    assert p.Text() == s;
    if !allocates(p.offset + 1) {
      return false, text;
    }
    text := CopyOut(p.buffer, p.offset + 1);
    assert p.buffer[..p.offset + 1] == s + [0];
  }

  /** The final copy of print, for an allocator without realloc. */
  method CopyOut(buffer: array<Byte>, n: nat) returns (text: array<Byte>)
    requires n <= buffer.Length
    ensures fresh(text) && text[..] == buffer[..n]
  {
    text := new Byte[n];
    var i := 0;
    while i < n
      invariant 0 <= i <= n
      invariant text[..i] == buffer[..i]
    {
      text[i] := buffer[i];
      i := i + 1;
    }
  }

  function Margin(members: Members, fmt: bool, depth: nat): seq<Byte>
    requires depth > 0
  {
    if !fmt then [] else Tabs(if members.End? then depth - 1 else depth)
  }

  /** What print_object still has to write at the start of a line. */
  ghost function Remaining(env: Numbers, members: Members, fmt: bool, depth: nat): seq<Byte>
    requires depth > 0
  {
    Margin(members, fmt, depth) + PrintMembers(env, members, fmt, depth)
  }

  // The texts below are named under a seal, as in the layout of a printed tree.

  ghost predicate IsItems(s: seq<Byte>, env: Numbers, items: Items, fmt: bool, depth: nat) {
    forall seal: Seal {:trigger Broken(seal)} :: s == PrintItems(env, items, fmt, depth)
  }

  ghost predicate IsRemaining(s: seq<Byte>, env: Numbers, members: Members, fmt: bool, depth: nat)
    requires depth > 0
  {
    forall seal: Seal {:trigger Broken(seal)} :: s == Remaining(env, members, fmt, depth)
  }

  lemma ArrayText(env: Numbers, items: Items, fmt: bool, depth: nat, before: seq<Byte>) returns (rest: seq<Byte>)
    ensures IsItems(rest, env, items, fmt, depth + 1)
    ensures JsonValues.PrintArray(env, items, fmt, depth) == [OPEN_BRACKET] + rest
    ensures before + ([OPEN_BRACKET] + rest) == before + [OPEN_BRACKET] + rest
  {
    rest := PrintItems(env, items, fmt, depth + 1);
  }

  lemma ObjectText(env: Numbers, members: Members, fmt: bool, depth: nat)
    ensures JsonValues.PrintObject(env, members, fmt, depth)
         == [OPEN_BRACE] + (if fmt then [NEWLINE] else []) + Remaining(env, members, fmt, depth + 1)
  {
  }

  lemma Regroup(before: seq<Byte>, a: seq<Byte>, b: seq<Byte>, c: seq<Byte>, d: seq<Byte>)
    ensures before + (a + (b + (c + d))) == before + a + b + c + d
  {
  }

  lemma RemainingText(env: Numbers, members: Members, fmt: bool, depth: nat, before: seq<Byte>)
    requires depth > 0 && members.Member?
    ensures before + Remaining(env, members, fmt, depth)
         == before + (if fmt then Tabs(depth) else []) + Quoted(members.key) + Colon(fmt)
            + PrintFromValue(env, members, fmt, depth)
  {
    Regroup(before, Margin(members, fmt, depth), Quoted(members.key), Colon(fmt),
            PrintFromValue(env, members, fmt, depth));
  }

  lemma FromValueText(env: Numbers, members: Members, fmt: bool, depth: nat, before: seq<Byte>, s: seq<Byte>)
    requires depth > 0 && members.Member? && s == Print(env, members.value, fmt, depth)
    ensures before + PrintFromValue(env, members, fmt, depth)
         == before + s + ((if members.rest.Member? then [COMMA] else []) + (if fmt then [NEWLINE] else []))
            + Remaining(env, members.rest, fmt, depth)
  {
    var a, b := MemberEnd(members.rest), if fmt then [NEWLINE] else [];
    var c, d := Margin(members.rest, fmt, depth), PrintMembers(env, members.rest, fmt, depth);
    assert Gap(members.rest, fmt, depth) == b + c;
    assert before + (s + (a + ((b + c) + d))) == before + s + (a + b) + (c + d);
  }

  /** The counting loop of print_string_ptr. */
  method CountEscapes(s: CString) returns (extra: nat)
    ensures extra == Extra(s)
  {
    extra := 0;
    var i := 0;
    while i < |s|
      invariant 0 <= i <= |s| && extra == Extra(s[..i])
    {
      assert s[..i + 1][..i] == s[..i];
      var b := s[i];
      if b == QUOTE || b == BACKSLASH || b == BACKSPACE || b == FORM_FEED || b == NEWLINE || b == RETURN || b == TAB {
        extra := extra + 1;
      } else if b < 32 {
        extra := extra + 5;
      }
      i := i + 1;
    }
    assert s[..|s|] == s;
  }

  lemma {:induction false} NothingToEscape(s: CString)
    requires Extra(s) == 0
    ensures Escape(s) == s
  {
    if s != [] {
      var n := |s| - 1;
      NothingToEscape(s[..n]);
      EscapeAppend(s[..n], s[n]);
      assert s == s[..n] + [s[n]];
    }
  }

  lemma {:induction false} EscapePrefix(s: CString, i: nat)
    requires i <= |s|
    ensures |Escape(s[..i])| <= |Escape(s)|
    decreases |s| - i
  {
    if i < |s| {
      EscapeAppend(s[..i], s[i]);
      assert s[..i + 1] == s[..i] + [s[i]];
      EscapePrefix(s, i + 1);
    } else {
      assert s[..i] == s;
    }
  }

  lemma QuoteJoin(before: seq<Byte>, e: seq<Byte>)
    ensures before + [QUOTE] + e + [QUOTE, 0] == before + ([QUOTE] + e + [QUOTE]) + [0]
  {
  }

  lemma EscapeNext(s: CString, i: nat)
    requires i < |s|
    ensures Escape(s[..i + 1]) == Escape(s[..i]) + EscapeByte(s[i]) && |Escape(s[..i + 1])| <= |Escape(s)|
  {
    assert s[..i + 1] == s[..i] + [s[i]];
    EscapeAppend(s[..i], s[i]);
    EscapePrefix(s, i + 1);
  }
}
