/** The doubly linked child lists of cJSON items, changed in place. */
module JsonList {
  import opened Options
  import opened JsonText

  /** The fields of an item that hold no pointers to items; `key` is its name in an object. */
  datatype Data = Data(kind: nat, number: nat, text: Option<CString>, key: Option<CString>)

  class Item {
    var next: Item?
    var prev: Item?
    var child: Item?
    var data: Data

    /** cJSON_New_Item clears every field. */
    constructor ()
      ensures next == null && prev == null && child == null && data == Data(0, 0, None, None)
    {
      next, prev, child := null, null, null;
      data := Data(0, 0, None, None);
    }
  }

  ghost predicate Distinct(s: seq<Item>) {
    forall i, j :: 0 <= i < j < |s| ==> s[i] != s[j]
  }

  function Successor(s: seq<Item>, i: nat): Item?
    requires i < |s|
  {
    if i + 1 < |s| then s[i + 1] else null
  }

  function Predecessor(s: seq<Item>, i: nat): Item?
    requires i < |s|
  {
    if i > 0 then s[i - 1] else null
  }

  /** The pointers of the item at i are those of the list s. */
  ghost predicate InPlace(s: seq<Item>, i: nat)
    requires i < |s|
    reads s
  {
    s[i].next == Successor(s, i) && s[i].prev == Predecessor(s, i)
  }

  /** The items from `head` on, along `next`, are s, and `prev` leads back; the head has no `prev`. */
  ghost predicate Linked(head: Item?, s: seq<Item>)
    reads s
  {
    && Distinct(s)
    && head == (if s == [] then null else s[0])
    && forall i {:trigger InPlace(s, i)} :: 0 <= i < |s| ==> InPlace(s, i)
  }

  /** get_array_item: the item at an index, or null. */
  method GetArrayItem(list: Item, index: nat, ghost s: seq<Item>) returns (item: Item?)
    requires Linked(list.child, s)
    ensures item == if index < |s| then s[index] else null
  {
    item := list.child;
    var left := index;
    ghost var i := 0;
    while item != null && left > 0
      invariant 0 <= i <= |s| && i + left == index
      invariant item == if i < |s| then s[i] else null
      decreases left
    {
      assert InPlace(s, i);
      left := left - 1;
      item := item.next;
      i := i + 1;
    }
  }

  /**
    add_item_to_array: behind the last item. The item's own pointers are taken over as they are, so the
    result is a list if and only if they were null where the code does not set them.
   */
  method AddItemToArray(list: Item, item: Item, ghost s: seq<Item>)
    requires Linked(list.child, s) && item !in s && list !in s && list != item
    modifies list`child, item`prev, s`next
    ensures Linked(list.child, s + [item]) <==> old(item.next) == null && (s == [] ==> old(item.prev) == null)
  {
    ghost var s' := s + [item];
    var child := list.child;
    if child == null {
      list.child := item;
    } else {
      ghost var i := 0;
      assert InPlace(s, 0);
      while child.next != null
        invariant 0 <= i < |s| && child == s[i] && InPlace(s, i)
        decreases |s| - i
      {
        i := i + 1;
        child := child.next;
        assert InPlace(s, i);
      }
      child.next := item;
      item.prev := child;
    }
    assert InPlace(s', |s|) <==> old(item.next) == null && (s == [] ==> old(item.prev) == null);
    forall j | 0 <= j < |s|
      ensures InPlace(s', j)
    {
      assert old(InPlace(s, j));
    }
  }

  /** s with x before index k. */
  function Inserted(s: seq<Item>, k: nat, x: Item): seq<Item>
    requires k <= |s|
  {
    s[..k] + [x] + s[k..]
  }

  function Removed(s: seq<Item>, k: nat): seq<Item>
    requires k < |s|
  {
    s[..k] + s[k + 1..]
  }

  /** cJSON_InsertItemInArray: at the index, or at the end if the list is shorter; not at all if it is negative. */
  method InsertItemInArray(list: Item, which: int, item: Item, ghost s: seq<Item>)
    requires Linked(list.child, s) && item !in s && list !in s && list != item
    requires which >= |s| ==> item.next == null && (s == [] ==> item.prev == null)
    modifies list`child, item`next, item`prev, s`next, s`prev
    ensures Linked(list.child, if which < 0 then s else Inserted(s, if which < |s| then which else |s|, item))
  {
    if which < 0 {
      return;
    }
    var after := GetArrayItem(list, which, s);
    if after == null {
      AddItemToArray(list, item, s);
      assert Inserted(s, |s|, item) == s + [item];
      return;
    }
    assert InPlace(s, which);
    item.next := after;
    item.prev := after.prev;
    after.prev := item;
    if after == list.child {
      list.child := item;
    } else {
      item.prev.next := item;
    }
    ghost var s' := Inserted(s, which, item);
    forall j | 0 <= j < |s'|
      ensures InPlace(s', j)
    {
      if j < which { assert old(InPlace(s, j)); }
      if j > which { assert old(InPlace(s, j - 1)); }
    }
  }

  /** cJSON_DetachItemViaPointer: the item at k leaves the list and points nowhere. */
  method DetachItem(parent: Item, item: Item, ghost s: seq<Item>, ghost k: nat)
    requires Linked(parent.child, s) && parent !in s && k < |s| && s[k] == item
    modifies parent`child, s`next, s`prev
    ensures Linked(parent.child, Removed(s, k))
    ensures item.next == null && item.prev == null
  {
    assert InPlace(s, k);
    if item.prev != null {
      item.prev.next := item.next;
    }
    if item.next != null {
      item.next.prev := item.prev;
    }
    if item == parent.child {
      parent.child := item.next;
    }
    item.prev := null;
    item.next := null;
    ghost var s' := Removed(s, k);
    forall j | 0 <= j < |s'|
      ensures InPlace(s', j)
    {
      if j < k { assert old(InPlace(s, j)); } else { assert old(InPlace(s, j + 1)); }
    }
  }

  /** cJSON_ReplaceItemViaPointer, up to the deletion of the old item. */
  method ReplaceItem(parent: Item, item: Item, replacement: Item, ghost s: seq<Item>, ghost k: nat)
    requires Linked(parent.child, s) && parent !in s && k < |s| && s[k] == item
    requires replacement != parent && (replacement == item || replacement !in s)
    modifies parent`child, replacement`next, replacement`prev, s`next, s`prev
    ensures Linked(parent.child, s[k := replacement])
    ensures replacement != item ==> item.next == null && item.prev == null
  {
    if replacement == item {
      assert s[k := replacement] == s;
      return;
    }
    assert InPlace(s, k);
    replacement.next := item.next;
    replacement.prev := item.prev;
    if replacement.next != null {
      replacement.next.prev := replacement;
    }
    if replacement.prev != null {
      replacement.prev.next := replacement;
    }
    if parent.child == item {
      parent.child := replacement;
    }
    item.next := null;
    item.prev := null;
    ghost var s' := s[k := replacement];
    forall j | 0 <= j < |s'|
      ensures InPlace(s', j)
    {
      assert old(InPlace(s, j));
    }
  }
}
