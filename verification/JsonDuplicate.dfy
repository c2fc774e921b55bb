/** cJSON_Duplicate: a deep copy made of new items. */
module JsonDuplicate {
  import opened JsonList
  import opened JsonTrees
  import opened JsonBuild
  import opened Seals

  /** A tree whose root has got new neighbours. */
  lemma RelinkedHolds(c: Tree, h: map<Item, Cell>)
    requires HoldsIn(h, c) && SameBody(h, Store(Repr(c)), c.node)
    requires forall x :: x in Repr(c) && x != c.node ==> SameCell(h, Store(Repr(c)), x)
    requires Separated(c)
    ensures Holds(c)
  {
    HoldsFrame(h, Store(Repr(c)), c);
  }

  /** Links a copied child behind the others. */
  method LinkCopy(parent: Item, last: Item?, copy: Item, ghost done: Trees, ghost c: Tree)
    requires Growing(parent.child, last, done) && parent !in ReprAll(done)
    requires c.node == copy && Separated(c) && Holds(c)
    requires Repr(c) !! ReprAll(done) && parent !in Repr(c) && copy.next == null && copy.prev == null
    modifies parent`child, ReprAll(done)`next, copy`prev
    ensures Growing(parent.child, copy, Snoc(done, c)) && ReprAll(Snoc(done, c)) == ReprAll(done) + Repr(c)
  {
    GrowingOpens(parent.child, last, done);
    ghost var head, hc := parent.child, Store(Repr(c));
    ghost var h := StrungOpens(head, done);
    assert HoldsIn(hc, c) by { assert Broken(Seal); }
    if last != null {
      last.next := copy;
      copy.prev := last;
    } else {
      parent.child := copy;
    }
    Waits(h, head, parent.child, done, copy);
    RelinkedHolds(c, hc);
    ghost var before := WaitingOpens(parent.child, done, copy);
    Grows(parent.child, done, c, before);
  }

  /** One turn of the loop: copies a child and links it; `items` is what is being copied. */
  method CopyChild(parent: Item, last: Item?, child: Item, ghost items: set<Item>, ghost first: Item?, ghost kids: Trees,
                   ghost done: Trees, ghost rest: Trees)
    returns (copy: Item, next: Item?, ghost c: Tree)
    requires Walk(items, first, kids, done, rest) && rest.More? && child == rest.first.node
    requires Growing(parent.child, last, done) && parent !in ReprAll(done)
    requires parent !in items && ReprAll(done) !! items
    modifies parent`child, ReprAll(done)`next
    ensures c.node == copy && fresh(Repr(c))
    ensures Growing(parent.child, copy, Snoc(done, c)) && ReprAll(Snoc(done, c)) == ReprAll(done) + Repr(c)
    ensures Walk(items, first, kids, Snoc(done, c), rest.rest) && next == FirstOf(rest.rest)
    decreases rest.first, 1
  {
    ghost var others := ReprAll(done);
    assert allocated(others) && allocated(items);
    IntactFirst(items, rest);
    copy, c := Duplicate(child, rest.first);
    assert others !! Repr(c);
    LinkCopy(parent, last, copy, done, c);
    NextChild(items, first, kids, done, rest);
    RemainingGoesOn(kids, done, rest, c);
    next := child.next;
  }

  /** The loop of cJSON_Duplicate. */
  method CopyChildren(parent: Item, first: Item?, ghost kids: Trees, ghost items: set<Item>)
    returns (last: Item?, ghost done: Trees)
    requires Walk(items, first, kids, Last, kids) && first == FirstOf(kids)
    requires parent !in items && parent.child == null
    modifies parent`child
    ensures fresh(ReprAll(done)) && Growing(parent.child, last, done) && parent !in ReprAll(done)
    ensures ShapesOf(done) == ShapesOf(kids)
    decreases kids
  {
    assert allocated(items);
    var child := first;
    last, done := null, Last;
    NothingIsStrung();
    ghost var rest := kids;
    while child != null
      invariant Walk(items, first, kids, done, rest)
      invariant child == FirstOf(rest) && (rest == kids || rest < kids)
      invariant fresh(ReprAll(done)) && parent !in ReprAll(done)
      invariant Growing(parent.child, last, done)
      decreases rest
    {
      ghost var c;
      last, child, c := CopyChild(parent, last, child, items, first, kids, done, rest);
      done, rest := Snoc(done, c), rest.rest;
    }
    NothingRemains(kids, done);
  }

  lemma NothingRemains(all: Trees, done: Trees)
    requires Remaining(all, done, Last)
    ensures ShapesOf(done) == ShapesOf(all)
  {
    assert Broken(Seal);
    JoinNothing(ShapesOf(done));
  }

  /** cJSON_Duplicate with `recurse`: new items only, which look like the old ones. */
  method Duplicate(item: Item, ghost t: Tree) returns (copy: Item, ghost c: Tree)
    requires Holds(t) && t.node == item
    ensures c.node == copy && fresh(Repr(c)) && Separated(c) && Holds(c)
    ensures ShapeOf(c) == ShapeOf(t)
    ensures copy.next == null && copy.prev == null
    decreases t, 0
  {
    ghost var items := Repr(t);
    assert allocated(items);
    WalkStarts(t);
    copy := new Item();
    copy.data := item.data;
    ghost var done;
    var last;
    last, done := CopyChildren(copy, item.child, t.kids, items);
    GrowingOpens(copy.child, last, done);
    c := Tree(copy, t.data, done);
    Assemble(c);
  }
}
