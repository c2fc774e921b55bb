/** cJSON_Compare as it runs, over linked items that two trees may share. */
module JsonCompareItems {
  import opened Options
  import opened Seals
  import opened JsonText
  import opened JsonList
  import opened JsonTrees
  import V = JsonValues
  import C = JsonCompare

  const CJSON_RAW: nat := 128

  /** The kind without its flags. */
  function Kind(data: Data): nat {
    data.kind % 0x100
  }

  predicate ValidKind(kind: nat) {
    kind in {CJSON_FALSE, CJSON_TRUE, CJSON_NULL, CJSON_NUMBER, CJSON_STRING, CJSON_RAW, CJSON_ARRAY, CJSON_OBJECT}
  }

  // ---------------------------------------------------------------- what it computes

  ghost function TreeSize(t: Tree): nat
    decreases t
  {
    1 + TreesSize(t.kids)
  }

  ghost function TreesSize(ts: Trees): nat
    decreases ts
  {
    if ts.Last? then 0 else TreeSize(ts.first) + TreesSize(ts.rest)
  }

  /** Whether the walk of get_object_item stops at an item with this key. */
  predicate Stops(name: CString, key: Option<CString>, caseSensitive: bool) {
    if key.None? then caseSensitive else C.SameKey(name, key.value, caseSensitive)
  }

  /** get_object_item: the first child with the name; without regard to case, children without a name are passed. */
  ghost function Find(kids: Trees, name: Option<CString>, caseSensitive: bool): (t: Option<Tree>)
    ensures t.Some? ==> TreeSize(t.value) <= TreesSize(kids)
    decreases kids
  {
    if name.None? || kids.Last? then None
    else if Stops(name.value, kids.first.data.key, caseSensitive) then
      if kids.first.data.key.None? then None else Some(kids.first)
    else Find(kids.rest, name, caseSensitive)
  }

  /** Items of one valid kind are equal if they are the same or their contents are. */
  ghost predicate Same(doubles: C.Doubles, a: Tree, b: Tree, caseSensitive: bool)
    decreases TreeSize(a) + TreeSize(b), 0
  {
    && Kind(a.data) == Kind(b.data) && ValidKind(Kind(a.data))
    && (a.node == b.node || SameContents(doubles, a, b, caseSensitive))
  }

  predicate SameScalar(doubles: C.Doubles, a: Data, b: Data) {
    if Kind(a) == CJSON_NUMBER then C.SameNumber(doubles, a.number, b.number)
    else if Kind(a) == CJSON_STRING || Kind(a) == CJSON_RAW then a.text.Some? && b.text.Some? && a.text == b.text
    else true
  }

  ghost predicate SameContents(doubles: C.Doubles, a: Tree, b: Tree, caseSensitive: bool)
    decreases TreesSize(a.kids) + TreesSize(b.kids), 2
  {
    if Kind(a.data) == CJSON_ARRAY then SameLists(doubles, a.kids, b.kids, caseSensitive)
    else if Kind(a.data) == CJSON_OBJECT then
      Covered(doubles, a.kids, b.kids, caseSensitive) && Covered(doubles, b.kids, a.kids, caseSensitive)
    else SameScalar(doubles, a.data, b.data)
  }

  ghost predicate SameLists(doubles: C.Doubles, a: Trees, b: Trees, caseSensitive: bool)
    decreases TreesSize(a) + TreesSize(b), 1
  {
    if a.Last? || b.Last? then a.Last? && b.Last?
    else Same(doubles, a.first, b.first, caseSensitive) && SameLists(doubles, a.rest, b.rest, caseSensitive)
  }

  /** Each child is found among the others, with equal contents. */
  ghost predicate Covered(doubles: C.Doubles, a: Trees, b: Trees, caseSensitive: bool)
    decreases TreesSize(a) + TreesSize(b), 1
  {
    a.More? ==>
      var t := Find(b, a.first.data.key, caseSensitive);
      t.Some? && Same(doubles, a.first, t.value, caseSensitive) && Covered(doubles, a.rest, b, caseSensitive)
  }

  // ---------------------------------------------------------------- the walk over children

  /** get_object_item */
  method GetObjectItem(parent: Item, name: Option<CString>, caseSensitive: bool, ghost t: Tree)
    returns (item: Item?, ghost found: Option<Tree>)
    requires Holds(t) && t.node == parent
    ensures var first := Find(t.kids, name, caseSensitive);
            item == if first.None? then null else first.value.node
    ensures found == Find(t.kids, name, caseSensitive) && (found.Some? ==> Holds(found.value))
  {
    if name.None? {
      return null, None;
    }
    WalkStarts(t);
    item := parent.child;
    ghost var done, rest := Last, t.kids;
    if item != null {
      WalkGoesOn(Repr(t), parent.child, t.kids, done, rest);
    }
    while item != null && !Stops(name.value, item.data.key, caseSensitive)
      invariant Walk(Repr(t), parent.child, t.kids, done, rest) && item == FirstOf(rest)
      invariant Find(rest, name, caseSensitive) == Find(t.kids, name, caseSensitive)
      invariant item != null ==> item.data == rest.first.data && Holds(rest.first)
      decreases rest
    {
      WalkGoesOn(Repr(t), parent.child, t.kids, done, rest);
      item := item.next;
      done, rest := Snoc(done, rest.first), rest.rest;
      if item != null {
        WalkGoesOn(Repr(t), parent.child, t.kids, done, rest);
      }
    }
    found := Find(rest, name, caseSensitive);
    if item != null && item.data.key.None? {
      item := null;
    }
  }

  // ---------------------------------------------------------------- the comparison

  /** cJSON_Compare. The trees need not be disjoint. */
  method Compare(doubles: C.Doubles, a: Item?, b: Item?, caseSensitive: bool, ghost ta: Tree, ghost tb: Tree)
    returns (equal: bool)
    requires (a != null ==> Holds(ta) && ta.node == a) && (b != null ==> Holds(tb) && tb.node == b)
    ensures equal == (a != null && b != null && Same(doubles, ta, tb, caseSensitive))
    decreases TreeSize(ta) + TreeSize(tb), 0
  {
    if a == null || b == null {
      return false;
    }
    WalkStarts(ta);
    WalkStarts(tb);
    assert allocated(Repr(ta)) && allocated(Repr(tb));
    if Kind(a.data) != Kind(b.data) || !ValidKind(Kind(a.data)) {
      return false;
    }
    if a == b {
      return true;
    }
    if Kind(a.data) == CJSON_ARRAY {
      equal := CompareLists(doubles, a, b, caseSensitive, ta, tb);
    } else if Kind(a.data) == CJSON_OBJECT {
      equal := CompareMembers(doubles, a, b, caseSensitive, ta, tb);
      if equal {
        equal := CompareMembers(doubles, b, a, caseSensitive, tb, ta);
      }
    } else {
      equal := SameScalar(doubles, a.data, b.data);
    }
  }

  /** The loop over two arrays. */
  method CompareLists(doubles: C.Doubles, a: Item, b: Item, caseSensitive: bool, ghost ta: Tree, ghost tb: Tree)
    returns (equal: bool)
    requires Holds(ta) && ta.node == a && Holds(tb) && tb.node == b
    ensures equal == SameLists(doubles, ta.kids, tb.kids, caseSensitive)
    decreases TreesSize(ta.kids) + TreesSize(tb.kids), 1
  {
    WalkStarts(ta);
    WalkStarts(tb);
    var x, y := a.child, b.child;
    ghost var doneA, restA, doneB, restB := Last, ta.kids, Last, tb.kids;
    while x != null && y != null
      invariant Walk(Repr(ta), a.child, ta.kids, doneA, restA) && x == FirstOf(restA)
      invariant Walk(Repr(tb), b.child, tb.kids, doneB, restB) && y == FirstOf(restB)
      invariant TreesSize(restA) <= TreesSize(ta.kids) && TreesSize(restB) <= TreesSize(tb.kids)
      invariant SameLists(doubles, restA, restB, caseSensitive) == SameLists(doubles, ta.kids, tb.kids, caseSensitive)
      decreases restA
    {
      WalkGoesOn(Repr(ta), a.child, ta.kids, doneA, restA);
      WalkGoesOn(Repr(tb), b.child, tb.kids, doneB, restB);
      assert allocated(Repr(ta)) && allocated(Repr(tb));
      var same := Compare(doubles, x, y, caseSensitive, restA.first, restB.first);
      if !same {
        return false;
      }
      x, y := x.next, y.next;
      doneA, restA := Snoc(doneA, restA.first), restA.rest;
      doneB, restB := Snoc(doneB, restB.first), restB.rest;
    }
    equal := x == y;
  }

  /** One of the two loops over objects: looks up the children of a among those of b. */
  method CompareMembers(doubles: C.Doubles, a: Item, b: Item, caseSensitive: bool, ghost ta: Tree, ghost tb: Tree)
    returns (equal: bool)
    requires Holds(ta) && ta.node == a && Holds(tb) && tb.node == b
    ensures equal == Covered(doubles, ta.kids, tb.kids, caseSensitive)
    decreases TreesSize(ta.kids) + TreesSize(tb.kids), 1
  {
    WalkStarts(ta);
    var x := a.child;
    ghost var done, rest := Last, ta.kids;
    while x != null
      invariant Walk(Repr(ta), a.child, ta.kids, done, rest) && x == FirstOf(rest) && Holds(tb)
      invariant TreesSize(rest) <= TreesSize(ta.kids)
      invariant Covered(doubles, rest, tb.kids, caseSensitive) == Covered(doubles, ta.kids, tb.kids, caseSensitive)
      decreases rest
    {
      WalkGoesOn(Repr(ta), a.child, ta.kids, done, rest);
      assert allocated(Repr(ta)) && allocated(Repr(tb)) && allocated(Repr(rest.first));
      var y;
      ghost var found;
      y, found := GetObjectItem(b, x.data.key, caseSensitive, tb);
      if y == null {
        return false;
      }
      var same := Compare(doubles, x, y, caseSensitive, rest.first, found.value);
      if !same {
        return false;
      }
      x := x.next;
      done, rest := Snoc(done, rest.first), rest.rest;
    }
    equal := true;
  }

  // ---------------------------------------------------------------- what it decides

  lemma {:induction false} FindIsLookup(kids: Trees, name: CString, caseSensitive: bool)
    requires AllWellTyped(ShapesOf(kids), true)
    ensures var t, v := Find(kids, Some(name), caseSensitive), C.Lookup(MembersOf(ShapesOf(kids)), name, caseSensitive);
            && (t.None? <==> v.None?)
            && (t.Some? ==> WellTyped(ShapeOf(t.value)) && ValueOf(ShapeOf(t.value)) == v.value
                            && Repr(t.value) <= ReprAll(kids))
    decreases kids
  {
    if kids.More? {
      FindIsLookup(kids.rest, name, caseSensitive);
    }
  }

  // From children to parents, kind by kind.

  lemma ScalarsCompare(doubles: C.Doubles, a: Tree, b: Tree, caseSensitive: bool)
    requires WellTyped(ShapeOf(a)) && WellTyped(ShapeOf(b)) && a.node != b.node
    requires a.data.kind != b.data.kind || (a.data.kind != CJSON_ARRAY && a.data.kind != CJSON_OBJECT)
    ensures Same(doubles, a, b, caseSensitive) <==>
            C.Compare(doubles, ValueOf(ShapeOf(a)), ValueOf(ShapeOf(b)), caseSensitive)
  {
  }

  lemma ArraysCompare(doubles: C.Doubles, a: Tree, b: Tree, caseSensitive: bool)
    requires WellTyped(ShapeOf(a)) && WellTyped(ShapeOf(b)) && a.node != b.node
    requires a.data.kind == b.data.kind == CJSON_ARRAY
    requires SameLists(doubles, a.kids, b.kids, caseSensitive) <==>
             C.CompareItems(doubles, ItemsOf(ShapesOf(a.kids)), ItemsOf(ShapesOf(b.kids)), caseSensitive)
    ensures Same(doubles, a, b, caseSensitive) <==>
            C.Compare(doubles, ValueOf(ShapeOf(a)), ValueOf(ShapeOf(b)), caseSensitive)
  {
  }

  lemma ObjectsCompare(doubles: C.Doubles, a: Tree, b: Tree, caseSensitive: bool)
    requires WellTyped(ShapeOf(a)) && WellTyped(ShapeOf(b)) && a.node != b.node
    requires a.data.kind == b.data.kind == CJSON_OBJECT
    requires Covered(doubles, a.kids, b.kids, caseSensitive) <==>
             C.Covered(doubles, MembersOf(ShapesOf(a.kids)), MembersOf(ShapesOf(b.kids)), caseSensitive)
    requires Covered(doubles, b.kids, a.kids, caseSensitive) <==>
             C.Covered(doubles, MembersOf(ShapesOf(b.kids)), MembersOf(ShapesOf(a.kids)), caseSensitive)
    ensures Same(doubles, a, b, caseSensitive) <==>
            C.Compare(doubles, ValueOf(ShapeOf(a)), ValueOf(ShapeOf(b)), caseSensitive)
  {
  }

  /** Trees without a common item are compared by their values. */
  lemma {:induction false} SameIsCompare(doubles: C.Doubles, a: Tree, b: Tree, caseSensitive: bool)
    requires WellTyped(ShapeOf(a)) && WellTyped(ShapeOf(b)) && Repr(a) !! Repr(b)
    ensures Same(doubles, a, b, caseSensitive) <==>
            C.Compare(doubles, ValueOf(ShapeOf(a)), ValueOf(ShapeOf(b)), caseSensitive)
    decreases TreeSize(a) + TreeSize(b), 0
  {
    assert a.node in Repr(a) && b.node in Repr(b);
    if a.data.kind == b.data.kind == CJSON_ARRAY {
      SameListsIsCompare(doubles, a.kids, b.kids, caseSensitive);
      ArraysCompare(doubles, a, b, caseSensitive);
    } else if a.data.kind == b.data.kind == CJSON_OBJECT {
      CoveredIsCovered(doubles, a.kids, b.kids, caseSensitive);
      CoveredIsCovered(doubles, b.kids, a.kids, caseSensitive);
      ObjectsCompare(doubles, a, b, caseSensitive);
    } else {
      ScalarsCompare(doubles, a, b, caseSensitive);
    }
  }

  lemma {:induction false} SameListsIsCompare(doubles: C.Doubles, a: Trees, b: Trees, caseSensitive: bool)
    requires AllWellTyped(ShapesOf(a), false) && AllWellTyped(ShapesOf(b), false) && ReprAll(a) !! ReprAll(b)
    ensures SameLists(doubles, a, b, caseSensitive) <==>
            C.CompareItems(doubles, ItemsOf(ShapesOf(a)), ItemsOf(ShapesOf(b)), caseSensitive)
    decreases TreesSize(a) + TreesSize(b), 1
  {
    if a.More? && b.More? {
      SameIsCompare(doubles, a.first, b.first, caseSensitive);
      SameListsIsCompare(doubles, a.rest, b.rest, caseSensitive);
    }
  }

  lemma {:induction false} CoveredIsCovered(doubles: C.Doubles, a: Trees, b: Trees, caseSensitive: bool)
    requires AllWellTyped(ShapesOf(a), true) && AllWellTyped(ShapesOf(b), true) && ReprAll(a) !! ReprAll(b)
    ensures Covered(doubles, a, b, caseSensitive) <==>
            C.Covered(doubles, MembersOf(ShapesOf(a)), MembersOf(ShapesOf(b)), caseSensitive)
    decreases TreesSize(a) + TreesSize(b), 1
  {
    if a.More? {
      assert ShapesOf(a) == Kid(ShapeOf(a.first), ShapesOf(a.rest)) && ShapeOf(a.first).data == a.first.data;
      assert TreeSize(a.first) > 0;
      var t := Find(b, a.first.data.key, caseSensitive);
      FindIsLookup(b, a.first.data.key.value, caseSensitive);
      if t.Some? {
        SameIsCompare(doubles, a.first, t.value, caseSensitive);
      }
      CoveredIsCovered(doubles, a.rest, b, caseSensitive);
    }
  }

  // Two trees of one heap may share items. The items of one node are one tree.

  lemma {:induction false} OneList(h: map<Item, Cell>, head: Item?, s: seq<Item>, s': seq<Item>, i: nat)
    requires LinkedIn(h, head, s) && LinkedIn(h, head, s') && i < |s|
    ensures i < |s'| && s[i] == s'[i]
  {
    if i > 0 {
      OneList(h, head, s, s', i - 1);
      assert Successor(s, i - 1) == h[s[i - 1]].next == Successor(s', i - 1);
    }
  }

  lemma {:induction false} OneTree(h: map<Item, Cell>, a: Tree, b: Tree)
    requires HoldsIn(h, a) && HoldsIn(h, b) && a.node == b.node
    ensures a == b
    decreases a
  {
    var s, s', head := Nodes(a.kids), Nodes(b.kids), h[a.node].child;
    if |s| < |s'| {
      OneList(h, head, s', s, |s|);
    } else if |s'| < |s| {
      OneList(h, head, s, s', |s'|);
    }
    forall i | 0 <= i < |s|
      ensures s[i] == s'[i]
    {
      OneList(h, head, s, s', i);
    }
    assert s == s';
    SameTrees(h, a.kids, b.kids);
  }

  lemma {:induction false} SameTrees(h: map<Item, Cell>, a: Trees, b: Trees)
    requires AllHoldIn(h, a) && AllHoldIn(h, b) && Nodes(a) == Nodes(b)
    ensures a == b
    decreases a
  {
    if a.More? {
      assert Nodes(a)[0] == a.first.node && Nodes(a)[1..] == Nodes(a.rest);
      assert b.More? && Nodes(b)[0] == b.first.node && Nodes(b)[1..] == Nodes(b.rest);
      OneTree(h, a.first, b.first);
      SameTrees(h, a.rest, b.rest);
    } else {
      assert Nodes(b) == [] && b.Last?;
    }
  }

  lemma {:induction false} FindHolds(h: map<Item, Cell>, kids: Trees, name: Option<CString>, caseSensitive: bool)
    requires AllHoldIn(h, kids)
    ensures var t := Find(kids, name, caseSensitive); t.Some? ==> HoldsIn(h, t.value)
    decreases kids
  {
    if kids.More? {
      FindHolds(h, kids.rest, name, caseSensitive);
    }
  }

  /** Trees of one heap that may share items are compared by their values, if these are coherent. */
  lemma {:induction false} SharedIsCompare(h: map<Item, Cell>, doubles: C.Doubles, a: Tree, b: Tree,
                                           caseSensitive: bool)
    requires HoldsIn(h, a) && HoldsIn(h, b) && WellTyped(ShapeOf(a)) && WellTyped(ShapeOf(b))
    requires C.Coherent(doubles, ValueOf(ShapeOf(a)), caseSensitive)
    requires C.Coherent(doubles, ValueOf(ShapeOf(b)), caseSensitive)
    ensures Same(doubles, a, b, caseSensitive) <==>
            C.Compare(doubles, ValueOf(ShapeOf(a)), ValueOf(ShapeOf(b)), caseSensitive)
    decreases TreeSize(a) + TreeSize(b), 0
  {
    if a.node == b.node {
      OneTree(h, a, b);
      SameNodeCompares(doubles, a, caseSensitive);
    } else if a.data.kind == b.data.kind == CJSON_ARRAY {
      SharedListsIsCompare(h, doubles, a.kids, b.kids, caseSensitive);
      ArraysCompare(doubles, a, b, caseSensitive);
    } else if a.data.kind == b.data.kind == CJSON_OBJECT {
      SharedObjects(h, doubles, a, b, caseSensitive);
      ObjectsCompare(doubles, a, b, caseSensitive);
    } else {
      ScalarsCompare(doubles, a, b, caseSensitive);
    }
  }

  lemma SameNodeCompares(doubles: C.Doubles, a: Tree, caseSensitive: bool)
    requires WellTyped(ShapeOf(a)) && C.Coherent(doubles, ValueOf(ShapeOf(a)), caseSensitive)
    ensures Same(doubles, a, a, caseSensitive)
    ensures C.Compare(doubles, ValueOf(ShapeOf(a)), ValueOf(ShapeOf(a)), caseSensitive)
  {
    C.CompareReflexiveIff(doubles, ValueOf(ShapeOf(a)), caseSensitive);
  }

  lemma {:induction false} SharedObjects(h: map<Item, Cell>, doubles: C.Doubles, a: Tree, b: Tree, caseSensitive: bool)
    requires AllHoldIn(h, a.kids) && AllHoldIn(h, b.kids) && WellTyped(ShapeOf(a)) && WellTyped(ShapeOf(b))
    requires a.data.kind == b.data.kind == CJSON_OBJECT
    requires C.Coherent(doubles, ValueOf(ShapeOf(a)), caseSensitive)
    requires C.Coherent(doubles, ValueOf(ShapeOf(b)), caseSensitive)
    ensures Covered(doubles, a.kids, b.kids, caseSensitive) <==>
            C.Covered(doubles, MembersOf(ShapesOf(a.kids)), MembersOf(ShapesOf(b.kids)), caseSensitive)
    ensures Covered(doubles, b.kids, a.kids, caseSensitive) <==>
            C.Covered(doubles, MembersOf(ShapesOf(b.kids)), MembersOf(ShapesOf(a.kids)), caseSensitive)
    decreases TreesSize(a.kids) + TreesSize(b.kids), 2
  {
    var m := C.MeanMembers(doubles, MembersOf(ShapesOf(a.kids)), caseSensitive);
    var m' := C.MeanMembers(doubles, MembersOf(ShapesOf(b.kids)), caseSensitive);
    SharedIsCovered(h, doubles, a.kids, b.kids, m, m', caseSensitive);
    SharedIsCovered(h, doubles, b.kids, a.kids, m', m, caseSensitive);
  }

  lemma {:induction false} SharedListsIsCompare(h: map<Item, Cell>, doubles: C.Doubles, a: Trees, b: Trees,
                                                caseSensitive: bool)
    requires AllHoldIn(h, a) && AllHoldIn(h, b) && AllWellTyped(ShapesOf(a), false) && AllWellTyped(ShapesOf(b), false)
    requires C.CoherentItems(doubles, ItemsOf(ShapesOf(a)), caseSensitive)
    requires C.CoherentItems(doubles, ItemsOf(ShapesOf(b)), caseSensitive)
    ensures SameLists(doubles, a, b, caseSensitive) <==>
            C.CompareItems(doubles, ItemsOf(ShapesOf(a)), ItemsOf(ShapesOf(b)), caseSensitive)
    decreases TreesSize(a) + TreesSize(b), 1
  {
    if a.More? && b.More? {
      SharedIsCompare(h, doubles, a.first, b.first, caseSensitive);
      SharedListsIsCompare(h, doubles, a.rest, b.rest, caseSensitive);
    }
  }

  lemma {:induction false} SharedIsCovered(h: map<Item, Cell>, doubles: C.Doubles, a: Trees, b: Trees,
                                           m: map<CString, C.Meaning>, m': map<CString, C.Meaning>, caseSensitive: bool)
    requires AllHoldIn(h, a) && AllHoldIn(h, b) && AllWellTyped(ShapesOf(a), true) && AllWellTyped(ShapesOf(b), true)
    requires C.Agree(doubles, MembersOf(ShapesOf(a)), m, caseSensitive)
    requires C.Agree(doubles, MembersOf(ShapesOf(b)), m', caseSensitive)
    ensures Covered(doubles, a, b, caseSensitive) <==>
            C.Covered(doubles, MembersOf(ShapesOf(a)), MembersOf(ShapesOf(b)), caseSensitive)
    decreases TreesSize(a) + TreesSize(b), 1
  {
    if a.More? {
      assert ShapesOf(a) == Kid(ShapeOf(a.first), ShapesOf(a.rest)) && ShapeOf(a.first).data == a.first.data;
      assert TreeSize(a.first) > 0;
      var name := a.first.data.key.value;
      var t := Find(b, Some(name), caseSensitive);
      FindIsLookup(b, name, caseSensitive);
      FindHolds(h, b, Some(name), caseSensitive);
      if t.Some? {
        C.LookupIsCoherent(doubles, MembersOf(ShapesOf(b)), m', name, caseSensitive);
        SharedIsCompare(h, doubles, a.first, t.value, caseSensitive);
      }
      SharedIsCovered(h, doubles, a.rest, b, m, m', caseSensitive);
    }
  }

  /** cJSON_Compare on any two trees with coherent values, shared items or not: do they mean the same? */
  lemma ComparedByMeaning(doubles: C.Doubles, a: Tree, b: Tree, caseSensitive: bool)
    requires Holds(a) && Holds(b) && WellTyped(ShapeOf(a)) && WellTyped(ShapeOf(b))
    requires C.Coherent(doubles, ValueOf(ShapeOf(a)), caseSensitive)
    requires C.Coherent(doubles, ValueOf(ShapeOf(b)), caseSensitive)
    ensures Same(doubles, a, b, caseSensitive) <==>
            C.Mean(doubles, ValueOf(ShapeOf(a)), caseSensitive) == C.Mean(doubles, ValueOf(ShapeOf(b)), caseSensitive)
  {
    var h := OneStore(a, b);
    SharedIsCompare(h, doubles, a, b, caseSensitive);
    C.CompareIff(doubles, ValueOf(ShapeOf(a)), ValueOf(ShapeOf(b)), caseSensitive);
  }

  lemma OneStore(a: Tree, b: Tree) returns (h: map<Item, Cell>)
    requires Holds(a) && Holds(b)
    ensures HoldsIn(h, a) && HoldsIn(h, b)
  {
    assert Broken(Seal);
    h := Store(Repr(a) + Repr(b));
    StoreJoin(Repr(a), Repr(b));
    assert a.node in Repr(a) && b.node in Repr(b);
    HoldsFrame(Store(Repr(a)), h, a);
    HoldsFrame(Store(Repr(b)), h, b);
  }

  // Items that stand for no value: raw ones, and children without a name.

  /** Raw items are compared by their texts, which they must have. The flags of a kind do not matter. */
  lemma RawCompares(doubles: C.Doubles, a: Tree, b: Tree, caseSensitive: bool)
    requires a.data.kind % 256 == 128 && a.node != b.node
    ensures Same(doubles, a, b, caseSensitive) <==> b.data.kind % 256 == 128 && a.data.text == b.data.text && a.data.text.Some?
  {
  }

  /** Items of different kinds, or of none of the valid ones, are never equal, not even to themselves. */
  lemma InvalidIsUnequal(doubles: C.Doubles, a: Tree, b: Tree, caseSensitive: bool)
    requires a.data.kind % 256 != b.data.kind % 256 || a.data.kind % 256 !in {1, 2, 4, 8, 16, 32, 64, 128}
    ensures !Same(doubles, a, b, caseSensitive)
  {
  }

  ghost function Listed(ts: Trees): seq<Tree> {
    if ts.Last? then [] else [ts.first] + Listed(ts.rest)
  }

  /** Child i has the name; with regard to case, no child before it is without one. */
  ghost predicate FirstNamed(list: seq<Tree>, i: nat, name: CString, caseSensitive: bool) {
    && i < |list| && list[i].data.key.Some? && C.SameKey(name, list[i].data.key.value, caseSensitive)
    && forall j :: 0 <= j < i ==>
         if list[j].data.key.None? then !caseSensitive else !C.SameKey(name, list[j].data.key.value, caseSensitive)
  }

  /** get_object_item finds the first child with the name, which comparing with case it does not look for behind a nameless one. */
  lemma {:induction false} FindIsFirstNamed(kids: Trees, name: CString, caseSensitive: bool)
    ensures var found := Find(kids, Some(name), caseSensitive);
            && (found.Some? ==> exists i: nat :: FirstNamed(Listed(kids), i, name, caseSensitive) && Listed(kids)[i] == found.value)
            && (found.None? ==> forall i: nat :: !FirstNamed(Listed(kids), i, name, caseSensitive))
    decreases kids
  {
    if kids.More? {
      var list, rest := Listed(kids), Listed(kids.rest);
      FindIsFirstNamed(kids.rest, name, caseSensitive);
      assert list[0] == kids.first && list[1..] == rest;
      if Stops(name, kids.first.data.key, caseSensitive) {
        if kids.first.data.key.Some? {
          assert FirstNamed(list, 0, name, caseSensitive);
        }
      } else {
        var found := Find(kids.rest, Some(name), caseSensitive);
        if found.Some? {
          var i: nat :| FirstNamed(rest, i, name, caseSensitive) && rest[i] == found.value;
          assert FirstNamed(list, i + 1, name, caseSensitive) && list[i + 1] == found.value;
        } else {
          forall i: nat
            ensures !FirstNamed(list, i, name, caseSensitive)
          {
            if FirstNamed(list, i, name, caseSensitive) {
              assert i > 0 && FirstNamed(rest, i - 1, name, caseSensitive);
            }
          }
        }
      }
    }
  }

  /** An item is equal to itself, repeated keys and NaNs notwithstanding. */
  lemma ItemIsItself(doubles: C.Doubles, a: Tree, caseSensitive: bool)
    ensures Same(doubles, a, a, caseSensitive) <==> ValidKind(Kind(a.data))
  {
  }

  /** An item and its duplicate compare equal if and only if the value is coherent. */
  lemma CopyComparesEqualIff(t: Tree, c: Tree, doubles: C.Doubles, caseSensitive: bool)
    requires ShapeOf(c) == ShapeOf(t) && WellTyped(ShapeOf(t)) && Repr(c) !! Repr(t)
    ensures Same(doubles, t, c, caseSensitive) <==> C.Coherent(doubles, ValueOf(ShapeOf(t)), caseSensitive)
  {
    SameIsCompare(doubles, t, c, caseSensitive);
    C.CompareReflexiveIff(doubles, ValueOf(ShapeOf(t)), caseSensitive);
  }

  /** In particular when its objects have distinct keys and there are no NaNs. */
  lemma CopyComparesEqual(t: Tree, c: Tree, doubles: C.Doubles, caseSensitive: bool)
    requires ShapeOf(c) == ShapeOf(t) && WellTyped(ShapeOf(t)) && Repr(c) !! Repr(t)
    requires C.DistinctKeys(ValueOf(ShapeOf(t)), caseSensitive) && C.NoNan(doubles, ValueOf(ShapeOf(t)))
    ensures Same(doubles, t, c, caseSensitive)
  {
    C.DistinctIsCoherent(doubles, ValueOf(ShapeOf(t)), caseSensitive);
    CopyComparesEqualIff(t, c, doubles, caseSensitive);
  }
}
