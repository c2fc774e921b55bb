/** JSON trees and the text that cJSON prints for them. */
module JsonValues {
  import opened JsonText
  import opened JsonStrings

  /** An item, with its list of children in the order of their `next` pointers. Numbers stand for doubles. */
  datatype Value =
    | Null
    | False
    | True
    | Number(n: nat)
    | String(s: CString)
    | Array(items: Items)
    | Object(members: Members)

  datatype Items = Nil | Cons(head: Value, tail: Items)

  datatype Members = End | Member(key: CString, value: Value, rest: Members)

  // ---------------------------------------------------------------- numbers

  datatype Scan = Scan(number: nat, used: nat)

  /** The C library: which doubles are finite, the text print_number chooses, and strtod. */
  datatype Numbers = Numbers(finite: nat -> bool, show: nat -> seq<Byte>, scan: seq<Byte> -> Scan)

  predicate IsDigit(b: Byte) {
    0x30 <= b <= 0x39
  }

  /** The bytes that parse_number copies: digits, + - . e E. */
  predicate IsNumberByte(b: Byte) {
    IsDigit(b) || b == 0x2B || b == MINUS || b == 0x2E || b == 0x65 || b == 0x45
  }

  predicate NumberText(s: seq<Byte>) {
    && 1 <= |s| <= 25
    && (s[0] == MINUS || IsDigit(s[0]))
    && forall i :: 0 <= i < |s| ==> IsNumberByte(s[i])
  }

  /** strtod stays within its text. */
  predicate ScanOk(env: Numbers, s: seq<Byte>) {
    env.scan(s).used <= |s|
  }

  /** strtod inverts the printing. */
  predicate ShowOk(env: Numbers, n: nat) {
    env.finite(n) ==> NumberText(env.show(n)) && env.scan(env.show(n)) == Scan(n, |env.show(n)|)
  }

  /** What is taken for granted of the C library. */
  ghost predicate NumbersOk(env: Numbers) {
    && (forall s {:trigger ScanOk(env, s)} :: ScanOk(env, s))
    && (forall n {:trigger ShowOk(env, n)} :: ShowOk(env, n))
  }

  // ---------------------------------------------------------------- the pure printer

  const NULL_TEXT: seq<Byte> := [0x6E, 0x75, 0x6C, 0x6C]
  const FALSE_TEXT: seq<Byte> := [0x66, 0x61, 0x6C, 0x73, 0x65]
  const TRUE_TEXT: seq<Byte> := [0x74, 0x72, 0x75, 0x65]

  lemma KeywordTexts()
    ensures NULL_TEXT == Ascii("null") && FALSE_TEXT == Ascii("false") && TRUE_TEXT == Ascii("true")
  {
  }

  function Tabs(n: nat): (s: seq<Byte>)
    ensures |s| == n
  {
    if n == 0 then [] else Tabs(n - 1) + [TAB]
  }

  /** The blanks in front of a member or of a closing brace. */
  function Gap(members: Members, fmt: bool, depth: nat): seq<Byte>
    requires depth > 0
  {
    if !fmt then [] else [NEWLINE] + Tabs(if members.End? then depth - 1 else depth)
  }

  function Colon(fmt: bool): seq<Byte> {
    if fmt then [COLON, TAB] else [COLON]
  }

  function NumberPrint(env: Numbers, n: nat): seq<Byte> {
    if env.finite(n) then env.show(n) else NULL_TEXT
  }

  function Print(env: Numbers, v: Value, fmt: bool, depth: nat): seq<Byte>
    decreases v
  {
    match v
    case Null => NULL_TEXT
    case False => FALSE_TEXT
    case True => TRUE_TEXT
    case Number(n) => NumberPrint(env, n)
    case String(s) => Quoted(s)
    case Array(items) => PrintArray(env, items, fmt, depth)
    case Object(members) => PrintObject(env, members, fmt, depth)
  }

  function PrintArray(env: Numbers, items: Items, fmt: bool, depth: nat): seq<Byte>
    decreases items, 1
  {
    [OPEN_BRACKET] + PrintItems(env, items, fmt, depth + 1)
  }

  /** The rest of an array, with its closing bracket. */
  function PrintItems(env: Numbers, items: Items, fmt: bool, depth: nat): seq<Byte>
    decreases items, 0
  {
    match items
    case Nil => [CLOSE_BRACKET]
    case Cons(v, rest) => Print(env, v, fmt, depth) + (ItemEnd(rest, fmt) + PrintItems(env, rest, fmt, depth))
  }

  function ItemEnd(rest: Items, fmt: bool): seq<Byte> {
    if rest.Nil? then [] else if fmt then [COMMA, SPACE] else [COMMA]
  }

  function PrintObject(env: Numbers, members: Members, fmt: bool, depth: nat): seq<Byte>
    decreases members, 2
  {
    [OPEN_BRACE] + (Gap(members, fmt, depth + 1) + PrintMembers(env, members, fmt, depth + 1))
  }

  /** The rest of an object, from a key on, with its closing brace. */
  function PrintMembers(env: Numbers, members: Members, fmt: bool, depth: nat): seq<Byte>
    requires depth > 0
    decreases members, 1
  {
    if members.End? then [CLOSE_BRACE]
    else Quoted(members.key) + (Colon(fmt) + PrintFromValue(env, members, fmt, depth))
  }

  /** The same, from the value of the first member on. */
  function PrintFromValue(env: Numbers, members: Members, fmt: bool, depth: nat): seq<Byte>
    requires depth > 0 && members.Member?
    decreases members, 0
  {
    var rest := members.rest;
    Print(env, members.value, fmt, depth)
    + (MemberEnd(rest) + (Gap(rest, fmt, depth) + PrintMembers(env, rest, fmt, depth)))
  }

  function MemberEnd(rest: Members): seq<Byte> {
    if rest.End? then [] else [COMMA]
  }

  // ---------------------------------------------------------------- shape of a tree

  function Max(a: nat, b: nat): nat {
    if a < b then b else a
  }

  /** How deeply arrays and objects are nested. */
  function Nesting(v: Value): nat
    decreases v
  {
    match v
    case Array(items) => 1 + ItemsNesting(items)
    case Object(members) => 1 + MembersNesting(members)
    case _ => 0
  }

  function ItemsNesting(items: Items): nat
    decreases items
  {
    match items
    case Nil => 0
    case Cons(v, rest) => Max(Nesting(v), ItemsNesting(rest))
  }

  function MembersNesting(members: Members): nat
    decreases members
  {
    match members
    case End => 0
    case Member(_, v, rest) => Max(Nesting(v), MembersNesting(rest))
  }

  /** No number is an infinity or a NaN. */
  predicate Finite(env: Numbers, v: Value)
    decreases v
  {
    match v
    case Number(n) => env.finite(n)
    case Array(items) => ItemsFinite(env, items)
    case Object(members) => MembersFinite(env, members)
    case _ => true
  }

  predicate ItemsFinite(env: Numbers, items: Items)
    decreases items
  {
    items.Cons? ==> Finite(env, items.head) && ItemsFinite(env, items.tail)
  }

  predicate MembersFinite(env: Numbers, members: Members)
    decreases members
  {
    members.Member? ==> Finite(env, members.value) && MembersFinite(env, members.rest)
  }

  /** The tree with its infinities and NaNs replaced by null. */
  function Nulled(env: Numbers, v: Value): Value
    decreases v
  {
    match v
    case Number(n) => if env.finite(n) then v else Null
    case Array(items) => Array(NulledItems(env, items))
    case Object(members) => Object(NulledMembers(env, members))
    case _ => v
  }

  function NulledItems(env: Numbers, items: Items): Items
    decreases items
  {
    match items
    case Nil => Nil
    case Cons(v, rest) => Cons(Nulled(env, v), NulledItems(env, rest))
  }

  function NulledMembers(env: Numbers, members: Members): Members
    decreases members
  {
    match members
    case End => End
    case Member(key, v, rest) => Member(key, Nulled(env, v), NulledMembers(env, rest))
  }

  lemma {:induction false} NulledIffFinite(env: Numbers, v: Value)
    ensures Nulled(env, v) == v <==> Finite(env, v)
    decreases v
  {
    match v
    case Array(items) => NulledItemsIff(env, items);
    case Object(members) => NulledMembersIff(env, members);
    case _ =>
  }

  lemma {:induction false} NulledItemsIff(env: Numbers, items: Items)
    ensures NulledItems(env, items) == items <==> ItemsFinite(env, items)
    decreases items
  {
    match items
    case Nil =>
    case Cons(v, rest) =>
      NulledIffFinite(env, v);
      NulledItemsIff(env, rest);
  }

  lemma {:induction false} NulledMembersIff(env: Numbers, members: Members)
    ensures NulledMembers(env, members) == members <==> MembersFinite(env, members)
    decreases members
  {
    match members
    case End =>
    case Member(_, v, rest) =>
      NulledIffFinite(env, v);
      NulledMembersIff(env, rest);
  }

  lemma {:induction false} NulledNesting(env: Numbers, v: Value)
    ensures Nesting(Nulled(env, v)) == Nesting(v)
    decreases v
  {
    match v
    case Array(items) => NulledItemsNesting(env, items);
    case Object(members) => NulledMembersNesting(env, members);
    case _ =>
  }

  lemma {:induction false} NulledItemsNesting(env: Numbers, items: Items)
    ensures ItemsNesting(NulledItems(env, items)) == ItemsNesting(items)
    decreases items
  {
    match items
    case Nil =>
    case Cons(v, rest) =>
      NulledNesting(env, v);
      NulledItemsNesting(env, rest);
  }

  lemma {:induction false} NulledMembersNesting(env: Numbers, members: Members)
    ensures MembersNesting(NulledMembers(env, members)) == MembersNesting(members)
    decreases members
  {
    match members
    case End =>
    case Member(_, v, rest) =>
      NulledNesting(env, v);
      NulledMembersNesting(env, rest);
  }
}
