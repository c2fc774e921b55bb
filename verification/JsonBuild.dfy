/** Lists of items that grow at their end, as the parser and the deep copy build them. */
module JsonBuild {
  import opened Options
  import opened JsonText
  import opened JsonValues
  import opened JsonList
  import opened JsonTrees
  import opened Seals

  // ---------------------------------------------------------------- lists that grow at their end

  /** The parsed elements are trees, linked behind each other from `head` on. */
  ghost predicate Strung(head: Item?, done: Trees)
    reads ReprAll(done)
  {
    forall seal: Seal {:trigger Broken(seal)} ::
      AllHoldIn(Store(ReprAll(done)), done) && LinkedIn(Store(ReprAll(done)), head, Nodes(done))
  }

  /** The same, with one more item at the end that is not filled yet. */
  ghost predicate Waiting(head: Item?, done: Trees, item: Item)
    reads ReprAll(done), item
  {
    forall seal: Seal {:trigger Broken(seal)} ::
      && AllHoldIn(Store(ReprAll(done) + {item}), done)
      && LinkedIn(Store(ReprAll(done) + {item}), head, Nodes(done) + [item])
  }

  /** The state of a loop that builds a list. */
  ghost predicate Growing(head: Item?, last: Item?, done: Trees)
    reads ReprAll(done)
  {
    forall seal: Seal {:trigger Broken(seal)} :: Strung(head, done) && Apart(done) && last == LastOf(Nodes(done))
  }

  lemma NothingIsStrung()
    ensures Strung(null, Last) && Growing(null, null, Last)
  {
  }

  lemma GrowingOpens(head: Item?, last: Item?, done: Trees)
    requires Growing(head, last, done)
    ensures Strung(head, done) && Apart(done) && last == LastOf(Nodes(done))
  {
    assert Broken(Seal);
  }

  /** Adding an item behind the last one, in a store. */
  lemma LinkedInLonger(h: map<Item, Cell>, h': map<Item, Cell>, head: Item?, head': Item?, s: seq<Item>, item: Item)
    requires LinkedIn(h, head, s) && head' == (if s == [] then item else head) && item !in s
    requires forall i, j :: 0 <= i < j < |s| ==> s[i] != s[j]
    requires forall i :: 0 <= i < |s| ==> s[i] in h' && h'[s[i]].prev == h[s[i]].prev
    requires forall i :: 0 <= i < |s| ==> h'[s[i]].next == if s[i] == s[|s| - 1] then item else h[s[i]].next
    requires item in h' && h'[item].next == null && h'[item].prev == LastOf(s)
    ensures LinkedIn(h', head', s + [item])
  {
  }

  lemma {:induction false} NodesDiffer(ts: Trees)
    requires Apart(ts)
    ensures forall i, j :: 0 <= i < j < |Nodes(ts)| ==> Nodes(ts)[i] != Nodes(ts)[j]
    decreases ts
  {
    if ts.More? {
      NodesDiffer(ts.rest);
    }
  }

  lemma StrungOpens(head: Item?, done: Trees) returns (h: map<Item, Cell>)
    requires Strung(head, done)
    ensures h == Store(ReprAll(done)) && AllHoldIn(h, done) && LinkedIn(h, head, Nodes(done))
    ensures head == null <==> Nodes(done) == []
  {
    assert Broken(Seal);
    h := Store(ReprAll(done));
  }

  /** An item has just been linked behind the trees of h. */
  lemma Waits(h: map<Item, Cell>, head: Item?, head': Item?, done: Trees, item: Item)
    requires AllHoldIn(h, done) && LinkedIn(h, head, Nodes(done)) && Apart(done) && item !in ReprAll(done)
    requires head' == (if Nodes(done) == [] then item else head)
    requires forall x :: x in ReprAll(done) ==>
               && x in h && x.prev == h[x].prev && x.child == h[x].child && x.data == h[x].data
               && x.next == if x == LastOf(Nodes(done)) then item else h[x].next
    requires item.next == null && item.prev == LastOf(Nodes(done))
    ensures Waiting(head', done, item)
  {
    var h' := Store(ReprAll(done) + {item});
    NodesDiffer(done);
    LinkedInLonger(h, h', head, head', Nodes(done), item);
    RootsFrame(h, h', done);
  }

  /** "attach next item to list", the same in parse_array and parse_object. */
  method LinkNew(head: Item?, last: Item?, item: Item, ghost done: Trees) returns (head': Item?)
    requires Strung(head, done) && Apart(done) && last == LastOf(Nodes(done))
    requires item !in ReprAll(done) && item.next == null && item.prev == null
    modifies Nodes(done)`next, item`prev
    ensures Waiting(head', done, item)
  {
    ghost var h := StrungOpens(head, done);
    if head == null {
      head' := item;
    } else {
      head' := head;
      last.next := item;
      item.prev := last;
    }
    Waits(h, head, head', done, item);
  }

  lemma WaitingOpens(head: Item?, done: Trees, item: Item) returns (h: map<Item, Cell>)
    requires Waiting(head, done, item)
    ensures h == Store(ReprAll(done) + {item}) && AllHoldIn(h, done) && LinkedIn(h, head, Nodes(done) + [item])
  {
    assert Broken(Seal);
    h := Store(ReprAll(done) + {item});
  }

  /** A new item, linked behind the last one; `before` is the store in which it waits to be filled. */
  method StartItem(head: Item?, last: Item?, ghost done: Trees)
    returns (item: Item, head': Item?, ghost before: map<Item, Cell>)
    requires Growing(head, last, done)
    modifies ReprAll(done)`next
    ensures Apart(done) && fresh(item) && item !in ReprAll(done)
    ensures item.child == null && item.data == Data(0, 0, None, None)
    ensures WaitsIn(before, head', done, item)
    ensures item in before && item.next == before[item].next && item.prev == before[item].prev
  {
    ghost var others := ReprAll(done);
    assert allocated(others);
    GrowingOpens(head, last, done);
    item := new Item();
    head' := LinkNew(head, last, item, done);
    before := WaitingOpens(head', done, item);
  }

  /** In a store that agrees with the heap on the trees, the item waits to be filled. */
  ghost predicate WaitsIn(before: map<Item, Cell>, head: Item?, done: Trees, item: Item)
    reads ReprAll(done)
  {
    forall seal: Seal {:trigger Broken(seal)} ::
      && AllHoldIn(before, done) && LinkedIn(before, head, Nodes(done) + [item])
      && forall x :: x in ReprAll(done) ==> SameCell(before, Store(ReprAll(done)), x)
  }

  /** Once the last item is filled, the list is one of trees again. `before` is the store in which it waited. */
  lemma Settles(head: Item?, done: Trees, c: Tree, before: map<Item, Cell>)
    requires WaitsIn(before, head, done, c.node) && Holds(c) && ReprAll(done) !! Repr(c)
    requires c.node in before && c.node.next == before[c.node].next && c.node.prev == before[c.node].prev
    ensures Strung(head, Snoc(done, c)) && ReprAll(Snoc(done, c)) == ReprAll(done) + Repr(c)
    ensures LastOf(Nodes(Snoc(done, c))) == c.node
  {
    assert Broken(Seal);
    var h := Store(ReprAll(done) + Repr(c));
    SnocFacts(done, c, NoKid);
    StoreJoin(ReprAll(done), Repr(c));
    KidsFrame(before, h, done);
    assert c.node in Repr(c);
    HoldsFrame(Store(Repr(c)), h, c);
    SnocHolds(h, done, c);
    SameLinks(before, h, head, Nodes(done) + [c.node]);
  }

  lemma Grows(head: Item?, done: Trees, c: Tree, before: map<Item, Cell>)
    requires Apart(done) && Separated(c) && WaitsIn(before, head, done, c.node) && Holds(c) && ReprAll(done) !! Repr(c)
    requires c.node in before && c.node.next == before[c.node].next && c.node.prev == before[c.node].prev
    ensures Growing(head, c.node, Snoc(done, c)) && ReprAll(Snoc(done, c)) == ReprAll(done) + Repr(c)
  {
    Settles(head, done, c, before);
    SnocApart(done, c);
  }

  lemma SameLinks(h: map<Item, Cell>, h': map<Item, Cell>, head: Item?, s: seq<Item>)
    requires LinkedIn(h, head, s)
    requires forall i :: 0 <= i < |s| ==> s[i] in h' && h'[s[i]].next == h[s[i]].next && h'[s[i]].prev == h[s[i]].prev
    ensures LinkedIn(h', head, s)
  {
  }

  /** A parent and the list of its children are a tree. */
  lemma Assemble(c: Tree)
    requires Strung(c.node.child, c.kids) && Apart(c.kids) && c.node !in ReprAll(c.kids) && c.node.data == c.data
    ensures Separated(c) && Holds(c)
  {
    assert Broken(Seal);
    var h := Store(Repr(c));
    KidsFrame(Store(ReprAll(c.kids)), h, c.kids);
    SameLinks(Store(ReprAll(c.kids)), h, c.node.child, Nodes(c.kids));
  }

  // ---------------------------------------------------------------- the values of trees

  function AppendItem(items: Items, v: Value): Items {
    match items
    case Nil => Cons(v, Nil)
    case Cons(head, tail) => Cons(head, AppendItem(tail, v))
  }

  function AppendMember(members: Members, key: CString, v: Value): Members {
    match members
    case End => Member(key, v, End)
    case Member(k, w, rest) => Member(k, w, AppendMember(rest, key, v))
  }

  /** The tree stands for the value v. */
  ghost predicate Denotes(c: Tree, v: Value) {
    forall seal: Seal {:trigger Broken(seal)} :: WellTyped(ShapeOf(c)) && ValueOf(ShapeOf(c)) == v
  }

  ghost predicate DenoteItems(done: Trees, items: Items) {
    forall seal: Seal {:trigger Broken(seal)} ::
      AllWellTyped(ShapesOf(done), false) && ItemsOf(ShapesOf(done)) == items
  }

  ghost predicate DenoteMembers(done: Trees, members: Members) {
    forall seal: Seal {:trigger Broken(seal)} ::
      AllWellTyped(ShapesOf(done), true) && MembersOf(ShapesOf(done)) == members
  }

  lemma ScalarDenotes(c: Tree, v: Value)
    requires c.kids == Last
    requires match v
             case Null => c.data.kind == CJSON_NULL
             case False => c.data.kind == CJSON_FALSE
             case True => c.data.kind == CJSON_TRUE
             case Number(n) => c.data.kind == CJSON_NUMBER && c.data.number == n
             case String(s) => c.data.kind == CJSON_STRING && c.data.text == Some(s)
             case _ => false
    ensures Denotes(c, v)
  {
    var s := Shape(c.data, NoKid);
    assert ShapesOf(c.kids) == NoKid && ShapeOf(c) == s;
    assert AllWellTyped(s.kids, false) && WellTyped(s) && ValueOf(s) == v;
  }

  lemma ListDenotes(c: Tree, v: Value)
    requires || (v.Array? && c.data.kind == CJSON_ARRAY && DenoteItems(c.kids, v.items))
             || (v.Object? && c.data.kind == CJSON_OBJECT && DenoteMembers(c.kids, v.members))
    ensures Denotes(c, v)
  {
    assert Broken(Seal);
  }

  lemma NothingDenotes()
    ensures DenoteItems(Last, Nil) && DenoteMembers(Last, End)
  {
  }

  lemma {:induction false} DenoteOneMoreItem(done: Trees, items: Items, c: Tree, v: Value)
    requires DenoteItems(done, items) && Denotes(c, v)
    ensures DenoteItems(Snoc(done, c), AppendItem(items, v))
    decreases done
  {
    assert Broken(Seal);
    if done.More? {
      DenoteOneMoreItem(done.rest, items.tail, c, v);
    }
  }

  lemma {:induction false} DenoteOneMoreMember(done: Trees, members: Members, c: Tree, key: CString, v: Value)
    requires DenoteMembers(done, members) && Denotes(c, v) && c.data.key == Some(key)
    ensures DenoteMembers(Snoc(done, c), AppendMember(members, key, v))
    decreases done
  {
    assert Broken(Seal);
    if done.More? {
      DenoteOneMoreMember(done.rest, members.rest, c, key, v);
    }
  }

  /** The item is the root of a tree for v; its key is the given one. */
  ghost predicate Built(item: Item, c: Tree, v: Value, key: Option<CString>)
    reads Repr(c)
  {
    c.node == item && Separated(c) && Holds(c) && Denotes(c, v) && c.data.key == key
  }
}
