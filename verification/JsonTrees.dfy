/** Trees of linked cJSON items on the heap, and the values that they stand for. */
module JsonTrees {
  import V = JsonValues
  import opened JsonList
  import opened Seals

  /** A tree of items, with the data that its items hold. */
  datatype Tree = Tree(node: Item, data: Data, kids: Trees)

  datatype Trees = Last | More(first: Tree, rest: Trees)

  ghost function Nodes(ts: Trees): (s: seq<Item>)
    ensures forall i :: 0 <= i < |s| ==> s[i] in ReprAll(ts)
    decreases ts
  {
    if ts.Last? then [] else [ts.first.node] + Nodes(ts.rest)
  }

  ghost function Repr(t: Tree): set<Item>
    decreases t
  {
    {t.node} + ReprAll(t.kids)
  }

  ghost function ReprAll(ts: Trees): set<Item>
    decreases ts
  {
    if ts.Last? then {} else Repr(ts.first) + ReprAll(ts.rest)
  }

  /** No item occurs twice. */
  ghost predicate Separated(t: Tree)
    decreases t
  {
    t.node !in ReprAll(t.kids) && Apart(t.kids)
  }

  ghost predicate Apart(ts: Trees)
    decreases ts
  {
    ts.More? ==> Separated(ts.first) && Repr(ts.first) !! ReprAll(ts.rest) && Apart(ts.rest)
  }

  /** The fields of an item. */
  datatype Cell = Cell(next: Item?, prev: Item?, child: Item?, data: Data)

  ghost function Store(items: set<Item>): map<Item, Cell>
    reads items
  {
    map x | x in items :: Cell(x.next, x.prev, x.child, x.data)
  }

  /** The list of kids is linked in the store. */
  ghost predicate LinkedIn(h: map<Item, Cell>, head: Item?, s: seq<Item>) {
    && head == (if s == [] then null else s[0])
    && forall i :: 0 <= i < |s| ==> s[i] in h && h[s[i]].next == Successor(s, i) && h[s[i]].prev == Predecessor(s, i)
  }

  /** The store holds the tree t. */
  ghost predicate HoldsIn(h: map<Item, Cell>, t: Tree)
    decreases t
  {
    && t.node in h && h[t.node].data == t.data
    && LinkedIn(h, h[t.node].child, Nodes(t.kids))
    && AllHoldIn(h, t.kids)
  }

  ghost predicate AllHoldIn(h: map<Item, Cell>, ts: Trees)
    decreases ts
  {
    ts.More? ==> HoldsIn(h, ts.first) && AllHoldIn(h, ts.rest)
  }

  // ---------------------------------------------------------------- what a tree looks like

  datatype Shape = Shape(data: Data, kids: Shapes)

  datatype Shapes = NoKid | Kid(first: Shape, rest: Shapes)

  ghost function ShapeOf(t: Tree): Shape
    decreases t
  {
    Shape(t.data, ShapesOf(t.kids))
  }

  ghost function ShapesOf(ts: Trees): Shapes
    decreases ts
  {
    if ts.Last? then NoKid else Kid(ShapeOf(ts.first), ShapesOf(ts.rest))
  }

  ghost function Join(a: Shapes, b: Shapes): Shapes
    decreases a
  {
    if a.NoKid? then b else Kid(a.first, Join(a.rest, b))
  }

  ghost function Snoc(ts: Trees, t: Tree): Trees
    decreases ts
  {
    if ts.Last? then More(t, Last) else More(ts.first, Snoc(ts.rest, t))
  }

  lemma {:induction false} SnocFacts(ts: Trees, t: Tree, more: Shapes)
    ensures Nodes(Snoc(ts, t)) == Nodes(ts) + [t.node]
    ensures ReprAll(Snoc(ts, t)) == ReprAll(ts) + Repr(t)
    ensures Join(ShapesOf(Snoc(ts, t)), more) == Join(ShapesOf(ts), Kid(ShapeOf(t), more))
    decreases ts
  {
    if ts.More? {
      SnocFacts(ts.rest, t, more);
    }
  }

  lemma {:induction false} SnocApart(ts: Trees, t: Tree)
    requires Apart(ts) && Separated(t) && ReprAll(ts) !! Repr(t)
    ensures Apart(Snoc(ts, t))
    decreases ts
  {
    if ts.More? {
      SnocFacts(ts.rest, t, NoKid);
      SnocApart(ts.rest, t);
    }
  }

  lemma {:induction false} SnocHolds(h: map<Item, Cell>, ts: Trees, t: Tree)
    requires AllHoldIn(h, ts) && HoldsIn(h, t)
    ensures AllHoldIn(h, Snoc(ts, t))
    decreases ts
  {
    if ts.More? {
      SnocHolds(h, ts.rest, t);
    }
  }

  lemma {:induction false} JoinNothing(a: Shapes)
    ensures Join(a, NoKid) == a
  {
    if a.Kid? {
      JoinNothing(a.rest);
    }
  }

  // ---------------------------------------------------------------- stores that agree

  ghost predicate SameCell(h: map<Item, Cell>, h': map<Item, Cell>, x: Item) {
    x in h ==> x in h' && h'[x] == h[x]
  }

  /** The same up to the neighbours. */
  ghost predicate SameBody(h: map<Item, Cell>, h': map<Item, Cell>, x: Item) {
    x in h ==> x in h' && h'[x].data == h[x].data && h'[x].child == h[x].child
  }

  /** The neighbours of its root do not matter to a tree. */
  lemma {:induction false} HoldsFrame(h: map<Item, Cell>, h': map<Item, Cell>, t: Tree)
    requires HoldsIn(h, t) && SameBody(h, h', t.node)
    requires forall x :: x in ReprAll(t.kids) ==> SameCell(h, h', x)
    ensures HoldsIn(h', t)
    decreases t
  {
    var s := Nodes(t.kids);
    forall i | 0 <= i < |s|
      ensures s[i] in h' && h'[s[i]].next == Successor(s, i) && h'[s[i]].prev == Predecessor(s, i)
    {
      assert SameCell(h, h', s[i]);
    }
    KidsFrame(h, h', t.kids);
  }

  lemma {:induction false} KidsFrame(h: map<Item, Cell>, h': map<Item, Cell>, ts: Trees)
    requires AllHoldIn(h, ts) && forall x :: x in ReprAll(ts) ==> SameCell(h, h', x)
    ensures AllHoldIn(h', ts)
    decreases ts
  {
    if ts.More? {
      assert ts.first.node in Repr(ts.first) && Repr(ts.first) <= ReprAll(ts);
      assert forall x :: x in ReprAll(ts.first.kids) ==> x in Repr(ts.first);
      assert SameCell(h, h', ts.first.node);
      HoldsFrame(h, h', ts.first);
      KidsFrame(h, h', ts.rest);
    }
  }

  /** Trees whose roots may have got new neighbours. */
  lemma {:induction false} RootsFrame(h: map<Item, Cell>, h': map<Item, Cell>, ts: Trees)
    requires AllHoldIn(h, ts) && Apart(ts)
    requires forall x :: x in ReprAll(ts) ==> SameBody(h, h', x) && (x !in Nodes(ts) ==> SameCell(h, h', x))
    ensures AllHoldIn(h', ts)
    decreases ts
  {
    if ts.More? {
      assert forall i :: 0 <= i < |Nodes(ts.rest)| ==> Nodes(ts.rest)[i] in ReprAll(ts.rest);
      assert forall x :: x in ReprAll(ts.first.kids) ==> x !in Nodes(ts);
      HoldsFrame(h, h', ts.first);
      assert forall x :: x in ReprAll(ts.rest) && x !in Nodes(ts.rest) ==> x !in Nodes(ts);
      RootsFrame(h, h', ts.rest);
    }
  }

  // ---------------------------------------------------------------- trees on the heap

  /** The heap holds the tree t. */
  ghost predicate Holds(t: Tree)
    reads Repr(t)
  {
    forall seal: Seal {:trigger Broken(seal)} :: HoldsIn(Store(Repr(t)), t)
  }

  /** Among the items, the heap holds the trees ts. */
  ghost predicate Intact(items: set<Item>, ts: Trees)
    reads items
  {
    forall seal: Seal {:trigger Broken(seal)} :: AllHoldIn(Store(items), ts) && ReprAll(ts) <= items
  }

  /** Among the items, the list from `first` on is that of the kids. */
  ghost predicate ListIntact(items: set<Item>, first: Item?, kids: Trees)
    reads items
  {
    forall seal: Seal {:trigger Broken(seal)} :: LinkedIn(Store(items), first, Nodes(kids))
  }

  lemma HoldsOpens(t: Tree)
    requires Holds(t)
    ensures t.node in Repr(t) && t.node.data == t.data
    ensures Intact(Repr(t), t.kids) && ListIntact(Repr(t), t.node.child, t.kids)
  {
    assert Broken(Seal);
  }

  lemma IntactFirst(items: set<Item>, ts: Trees)
    requires Intact(items, ts) && ts.More?
    ensures Holds(ts.first) && Intact(items, ts.rest)
  {
    assert Broken(Seal);
    var t := ts.first;
    assert t.node in Repr(t);
    HoldsFrame(Store(items), Store(Repr(t)), t);
  }

  ghost function LastOf(s: seq<Item>): Item? {
    if s == [] then null else s[|s| - 1]
  }

  ghost function FirstOf(ts: Trees): Item? {
    if ts.Last? then null else ts.first.node
  }

  lemma StoreJoin(a: set<Item>, b: set<Item>)
    ensures forall x :: x in a ==> SameCell(Store(a), Store(a + b), x)
    ensures forall x :: x in b ==> SameCell(Store(b), Store(a + b), x)
  {
  }

  lemma FirstIs(t: Tree)
    requires Holds(t)
    ensures t.node in Repr(t) && t.node.child == FirstOf(t.kids)
  {
    assert Broken(Seal);
  }

  /** Where a loop stands in the list that it walks. */
  ghost predicate Remaining(all: Trees, done: Trees, rest: Trees) {
    forall seal: Seal {:trigger Broken(seal)} ::
      && |Nodes(rest)| <= |Nodes(all)| && Nodes(all)[|Nodes(all)| - |Nodes(rest)|..] == Nodes(rest)
      && Join(ShapesOf(done), ShapesOf(rest)) == ShapesOf(all)
  }

  lemma RemainingGoesOn(all: Trees, done: Trees, rest: Trees, c: Tree)
    requires Remaining(all, done, rest) && rest.More? && ShapeOf(c) == ShapeOf(rest.first)
    ensures Remaining(all, Snoc(done, c), rest.rest)
  {
    assert Broken(Seal);
    var s, i := Nodes(all), |Nodes(all)| - |Nodes(rest)|;
    SnocFacts(done, c, ShapesOf(rest.rest));
    assert s[i + 1..] == s[i..][1..] == Nodes(rest.rest);
    assert |s| - |Nodes(rest.rest)| == i + 1;
  }

  /** The successor of a child is the next one. */
  lemma NextChild(items: set<Item>, head: Item?, all: Trees, done: Trees, rest: Trees)
    requires ListIntact(items, head, all) && Remaining(all, done, rest) && rest.More?
    ensures rest.first.node in items && rest.first.node.next == FirstOf(rest.rest)
  {
    assert Broken(Seal);
    var s, i := Nodes(all), |Nodes(all)| - |Nodes(rest)|;
    assert s[i] == s[i..][0] == Nodes(rest)[0] == rest.first.node;
    if rest.rest.More? {
      assert s[i + 1] == s[i..][1] == Nodes(rest)[1] == rest.rest.first.node;
    } else {
      assert |Nodes(rest)| == 1;
    }
  }

  /** A walk over the children of an item stands before `rest`. */
  ghost predicate Walk(items: set<Item>, first: Item?, all: Trees, done: Trees, rest: Trees)
    reads items
  {
    Intact(items, rest) && ListIntact(items, first, all) && Remaining(all, done, rest)
  }

  lemma WalkStarts(t: Tree)
    requires Holds(t)
    ensures t.node in Repr(t) && t.node.data == t.data && t.node.child == FirstOf(t.kids)
    ensures Walk(Repr(t), t.node.child, t.kids, Last, t.kids)
  {
    HoldsOpens(t);
    FirstIs(t);
  }

  lemma WalkGoesOn(items: set<Item>, first: Item?, all: Trees, done: Trees, rest: Trees)
    requires Walk(items, first, all, done, rest) && rest.More?
    ensures Holds(rest.first) && rest.first.node in items && rest.first.node.next == FirstOf(rest.rest)
    ensures rest.first.node.data == rest.first.data
    ensures Walk(items, first, all, Snoc(done, rest.first), rest.rest)
  {
    IntactFirst(items, rest);
    HoldsOpens(rest.first);
    NextChild(items, first, all, done, rest);
    RemainingGoesOn(all, done, rest, rest.first);
  }

  // ---------------------------------------------------------------- the value of a tree

  const CJSON_FALSE: nat := 1
  const CJSON_TRUE: nat := 2
  const CJSON_NULL: nat := 4
  const CJSON_NUMBER: nat := 8
  const CJSON_STRING: nat := 16
  const CJSON_ARRAY: nat := 32
  const CJSON_OBJECT: nat := 64

  /** The kinds are the plain ones, strings have a text, and the members of objects a key. */
  ghost predicate WellTyped(s: Shape)
    decreases s
  {
    && s.data.kind in {CJSON_FALSE, CJSON_TRUE, CJSON_NULL, CJSON_NUMBER, CJSON_STRING, CJSON_ARRAY, CJSON_OBJECT}
    && (s.data.kind == CJSON_STRING ==> s.data.text.Some?)
    && AllWellTyped(s.kids, s.data.kind == CJSON_OBJECT)
  }

  ghost predicate AllWellTyped(kids: Shapes, keyed: bool)
    decreases kids
  {
    kids.Kid? ==>
      && WellTyped(kids.first) && (keyed ==> kids.first.data.key.Some?)
      && AllWellTyped(kids.rest, keyed)
  }

  /** The value that a tree of items stands for. */
  ghost function ValueOf(s: Shape): V.Value
    requires WellTyped(s)
    decreases s
  {
    if s.data.kind == CJSON_FALSE then V.False
    else if s.data.kind == CJSON_TRUE then V.True
    else if s.data.kind == CJSON_NULL then V.Null
    else if s.data.kind == CJSON_NUMBER then V.Number(s.data.number)
    else if s.data.kind == CJSON_STRING then V.String(s.data.text.value)
    else if s.data.kind == CJSON_ARRAY then V.Array(ItemsOf(s.kids))
    else V.Object(MembersOf(s.kids))
  }

  ghost function ItemsOf(kids: Shapes): V.Items
    requires AllWellTyped(kids, false)
    decreases kids
  {
    if kids.NoKid? then V.Nil else V.Cons(ValueOf(kids.first), ItemsOf(kids.rest))
  }

  ghost function MembersOf(kids: Shapes): V.Members
    requires AllWellTyped(kids, true)
    decreases kids
  {
    if kids.NoKid? then V.End
    else V.Member(kids.first.data.key.value, ValueOf(kids.first), MembersOf(kids.rest))
  }
}
