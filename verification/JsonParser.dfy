/** The recursive-descent parser as functions of the text, a position and the nesting depth. */
module JsonParser {
  import opened Options
  import opened JsonText
  import opened JsonStrings
  import opened JsonValues

  const NESTING_LIMIT: nat := 1000
  const NUMBER_ROOM: nat := 63

  /** A failure says where the parser stands. */
  datatype Parsed<T> = Parsed(value: T, pos: nat) | Failed(pos: nat)

  /** A success advances and stays before the terminator; a failure is never past the end of the buffer. */
  ghost predicate Advances<T>(t: seq<Byte>, p: nat, r: Parsed<T>) {
    if r.Parsed? then p < r.pos < |t| else p <= r.pos <= |t|
  }

  /** A C string ends at its first zero byte. */
  function Cut(bytes: seq<Byte>): CString {
    if bytes == [] || bytes[0] == 0 then [] else [bytes[0]] + Cut(bytes[1..])
  }

  function ParseString(t: seq<Byte>, p: nat): (r: Parsed<CString>)
    requires Terminated(t) && p < |t|
    ensures Advances(t, p, r)
  {
    if t[p] != QUOTE then Failed(p + 1)
    else
      var end := StringEnd(t, p + 1);
      if end.None? then Failed(p + 1)
      else
        var d := Decode(t, p + 1, end.value);
        if d.BadEscape? then Failed(d.at) else Parsed(Cut(d.bytes), end.value + 1)
  }

  /** The text that is handed to strtod. */
  function NumberSpan(t: seq<Byte>, p: nat, room: nat): (s: seq<Byte>)
    requires p <= |t|
    ensures |s| <= room && p + |s| <= |t|
    ensures p < |t| && t[|t| - 1] == 0 ==> p + |s| < |t|
    decreases room
  {
    if room == 0 || p == |t| || !IsNumberByte(t[p]) then [] else [t[p]] + NumberSpan(t, p + 1, room - 1)
  }

  /** The span is the longest run of number bytes that there is room for. */
  lemma {:induction false} SpanIs(t: seq<Byte>, p: nat, n: nat, room: nat)
    requires p + n <= |t| && n <= room && forall j :: p <= j < p + n ==> IsNumberByte(t[j])
    requires n == room || p + n == |t| || !IsNumberByte(t[p + n])
    ensures NumberSpan(t, p, room) == t[p..p + n]
    decreases n
  {
    if n > 0 {
      SpanIs(t, p + 1, n - 1, room - 1);
      assert t[p..p + n] == [t[p]] + t[p + 1..p + n];
    }
  }

  function ParseNumber(env: Numbers, t: seq<Byte>, p: nat): (r: Parsed<Value>)
    requires NumbersOk(env) && Terminated(t) && p < |t|
    ensures Advances(t, p, r)
  {
    var s := NumberSpan(t, p, NUMBER_ROOM);
    var scan := env.scan(s);
    assert ScanOk(env, s);
    if scan.used == 0 then Failed(p) else Parsed(Number(scan.number), p + scan.used)
  }

  /** null, false or true. */
  function Keyword(t: seq<Byte>, p: nat): (r: Parsed<Value>)
    requires Terminated(t) && p < |t|
    ensures Advances(t, p, r)
  {
    if p + 4 <= |t| && t[p] == 0x6E && t[p + 1] == 0x75 && t[p + 2] == 0x6C && t[p + 3] == 0x6C then
      Parsed(Null, p + 4)
    else if p + 5 <= |t| && t[p] == 0x66 && t[p + 1] == 0x61 && t[p + 2] == 0x6C && t[p + 3] == 0x73 && t[p + 4] == 0x65 then
      Parsed(False, p + 5)
    else if p + 4 <= |t| && t[p] == 0x74 && t[p + 1] == 0x72 && t[p + 2] == 0x75 && t[p + 3] == 0x65 then
      Parsed(True, p + 4)
    else Failed(p)
  }

  function ParseValue(env: Numbers, t: seq<Byte>, p: nat, depth: nat): (r: Parsed<Value>)
    requires NumbersOk(env) && Terminated(t) && p < |t|
    ensures Advances(t, p, r)
    decreases |t| - p, 1
  {
    var k := Keyword(t, p);
    if k.Parsed? then k
    else if t[p] == QUOTE then
      var r := ParseString(t, p);
      if r.Failed? then Failed(r.pos) else Parsed(String(r.value), r.pos)
    else if t[p] == MINUS || IsDigit(t[p]) then ParseNumber(env, t, p)
    else if t[p] == OPEN_BRACKET then ParseArray(env, t, p, depth)
    else if t[p] == OPEN_BRACE then ParseObject(env, t, p, depth)
    else Failed(p)
  }

  function ParseArray(env: Numbers, t: seq<Byte>, p: nat, depth: nat): (r: Parsed<Value>)
    requires NumbersOk(env) && Terminated(t) && p < |t| && t[p] == OPEN_BRACKET
    ensures Advances(t, p, r)
    decreases |t| - p, 0
  {
    if depth >= NESTING_LIMIT then Failed(p)
    else
      var q := Skip(t, p + 1);
      if t[q] == CLOSE_BRACKET then Parsed(Array(Nil), q + 1)
      else
        var r := ParseItems(env, t, q, depth + 1);
        if r.Failed? then Failed(r.pos) else Parsed(Array(r.value), r.pos)
  }

  function ParseObject(env: Numbers, t: seq<Byte>, p: nat, depth: nat): (r: Parsed<Value>)
    requires NumbersOk(env) && Terminated(t) && p < |t| && t[p] == OPEN_BRACE
    ensures Advances(t, p, r)
    decreases |t| - p, 0
  {
    if depth >= NESTING_LIMIT then Failed(p)
    else
      var q := Skip(t, p + 1);
      if t[q] == CLOSE_BRACE then Parsed(Object(End), q + 1)
      else
        var r := ParseMembers(env, t, q, depth + 1);
        if r.Failed? then Failed(r.pos) else Parsed(Object(r.value), r.pos)
  }

  /** The elements of an array up to and including its closing bracket. */
  function ParseItems(env: Numbers, t: seq<Byte>, p: nat, depth: nat): (r: Parsed<Items>)
    requires NumbersOk(env) && Terminated(t) && p < |t|
    ensures Advances(t, p, r)
    decreases |t| - p, 2
  {
    var v := ParseValue(env, t, p, depth);
    if v.Failed? then Failed(v.pos)
    else
      var q := Skip(t, v.pos);
      if t[q] == COMMA then
        var r := ParseItems(env, t, Skip(t, q + 1), depth);
        if r.Failed? then r else Parsed(Cons(v.value, r.value), r.pos)
      else if t[q] == CLOSE_BRACKET then Parsed(Cons(v.value, Nil), q + 1)
      else Failed(q)
  }

  /** A key, its colon and its value. */
  function ParseMember(env: Numbers, t: seq<Byte>, p: nat, depth: nat): (r: Parsed<(CString, Value)>)
    requires NumbersOk(env) && Terminated(t) && p < |t|
    ensures Advances(t, p, r)
    decreases |t| - p, 2
  {
    var key := ParseString(t, p);
    if key.Failed? then Failed(key.pos)
    else
      var q := Skip(t, key.pos);
      if t[q] != COLON then Failed(q)
      else
        var v := ParseValue(env, t, Skip(t, q + 1), depth);
        if v.Failed? then Failed(v.pos) else Parsed((key.value, v.value), v.pos)
  }

  /** The members of an object up to and including its closing brace. */
  function ParseMembers(env: Numbers, t: seq<Byte>, p: nat, depth: nat): (r: Parsed<Members>)
    requires NumbersOk(env) && Terminated(t) && p < |t|
    ensures Advances(t, p, r)
    decreases |t| - p, 3
  {
    var m := ParseMember(env, t, p, depth);
    if m.Failed? then Failed(m.pos)
    else
      var q := Skip(t, m.pos);
      if t[q] == COMMA then
        var r := ParseMembers(env, t, Skip(t, q + 1), depth);
        if r.Failed? then r else Parsed(Member(m.value.0, m.value.1, r.value), r.pos)
      else if t[q] == CLOSE_BRACE then Parsed(Member(m.value.0, m.value.1, End), q + 1)
      else Failed(q)
  }

  /** The first position after a byte order mark, which is looked for in texts of more than four bytes. */
  function SkipMark(t: seq<Byte>): (p: nat)
    requires |t| > 0
    ensures p < |t|
  {
    if 4 < |t| && t[0] == 0xEF && t[1] == 0xBB && t[2] == 0xBF then 3 else 0
  }

  /** cJSON_ParseWithOpts: on failure, the position is that of the error. */
  function ParseText(env: Numbers, t: seq<Byte>, toTheEnd: bool): (r: Parsed<Value>)
    requires NumbersOk(env) && Terminated(t)
    ensures r.pos < |t|
    ensures r.Parsed? && toTheEnd ==> r.pos == |t| - 1
  {
    var v := ParseValue(env, t, Skip(t, SkipMark(t)), 0);
    if v.Failed? then Failed(if v.pos < |t| then v.pos else |t| - 1)
    else if !toTheEnd then v
    else
      var q := Skip(t, v.pos);
      if t[q] == 0 then Parsed(v.value, q) else Failed(q)
  }
}
