/** cJSON_Compare, and what it decides. */
module JsonCompare {
  import opened Options
  import opened JsonText
  import opened JsonValues

  // ---------------------------------------------------------------- keys and numbers

  /** tolower in the C locale. */
  function LowerByte(b: NonZero): NonZero {
    if 0x41 <= b <= 0x5A then b + 0x20 else b
  }

  lemma LowerByteIs(b: NonZero)
    ensures forall i :: 0 <= i < 26 && b == "ABCDEFGHIJKLMNOPQRSTUVWXYZ"[i] as int ==>
              LowerByte(b) == "abcdefghijklmnopqrstuvwxyz"[i] as int
    ensures b < 'A' as int || b > 'Z' as int ==> LowerByte(b) == b
  {
  }

  function Lower(s: CString): CString {
    if s == [] then [] else [LowerByte(s[0])] + Lower(s[1..])
  }

  /** What a key is compared by. */
  function Canonical(s: CString, caseSensitive: bool): CString {
    if caseSensitive then s else Lower(s)
  }

  /** case_insensitive_strcmp or strcmp gives 0. */
  predicate SameKey(s: CString, t: CString, caseSensitive: bool) {
    if s == [] || t == [] then s == t
    else (if caseSensitive then s[0] == t[0] else LowerByte(s[0]) == LowerByte(t[0]))
         && SameKey(s[1..], t[1..], caseSensitive)
  }

  lemma {:induction false} SameKeyIff(s: CString, t: CString, caseSensitive: bool)
    ensures SameKey(s, t, caseSensitive) <==> Canonical(s, caseSensitive) == Canonical(t, caseSensitive)
    decreases |s|
  {
    if s != [] && t != [] {
      SameKeyIff(s[1..], t[1..], caseSensitive);
      assert s == [s[0]] + s[1..] && t == [t[0]] + t[1..];
      if !caseSensitive {
        var a, b := Lower(s), Lower(t);
        assert a[0] == LowerByte(s[0]) && a[1..] == Lower(s[1..]);
        assert b[0] == LowerByte(t[0]) && b[1..] == Lower(t[1..]);
        if Lower(s[1..]) == Lower(t[1..]) && a[0] == b[0] {
          assert a == b;
        }
      }
    }
  }

  /** The numeric value of a double, None for a NaN; the two zeros have the same one. */
  type Doubles = nat -> Option<int>

  /** The == of doubles. */
  predicate SameNumber(doubles: Doubles, m: nat, n: nat) {
    doubles(m).Some? && doubles(m) == doubles(n)
  }

  // ---------------------------------------------------------------- the comparison

  function Size(v: Value): nat
    decreases v
  {
    match v
    case Array(items) => 1 + ItemsSize(items)
    case Object(members) => 1 + MembersSize(members)
    case _ => 1
  }

  function ItemsSize(items: Items): nat
    decreases items
  {
    if items.Nil? then 0 else Size(items.head) + ItemsSize(items.tail)
  }

  function MembersSize(members: Members): nat
    decreases members
  {
    if members.End? then 0 else Size(members.value) + MembersSize(members.rest)
  }

  /** get_object_item: the first member with the key. */
  function Lookup(members: Members, key: CString, caseSensitive: bool): (v: Option<Value>)
    ensures v.Some? ==> 0 < Size(v.value) <= MembersSize(members)
    decreases members
  {
    if members.End? then None
    else if SameKey(key, members.key, caseSensitive) then Some(members.value)
    else Lookup(members.rest, key, caseSensitive)
  }

  /** cJSON_Compare, for items that are not the same node. */
  predicate Compare(doubles: Doubles, a: Value, b: Value, caseSensitive: bool)
    decreases Size(a) + Size(b), 0
  {
    match a
    case Null => b.Null?
    case False => b.False?
    case True => b.True?
    case Number(n) => b.Number? && SameNumber(doubles, n, b.n)
    case String(s) => b.String? && s == b.s
    case Array(items) => b.Array? && CompareItems(doubles, items, b.items, caseSensitive)
    case Object(members) =>
      && b.Object?
      && Covered(doubles, members, b.members, caseSensitive)
      && Covered(doubles, b.members, members, caseSensitive)
  }

  predicate CompareItems(doubles: Doubles, a: Items, b: Items, caseSensitive: bool)
    decreases ItemsSize(a) + ItemsSize(b), 1
  {
    if a.Nil? || b.Nil? then a == b
    else Compare(doubles, a.head, b.head, caseSensitive) && CompareItems(doubles, a.tail, b.tail, caseSensitive)
  }

  /** One of the two loops over members: each is found among the others, with an equal value. */
  predicate Covered(doubles: Doubles, a: Members, b: Members, caseSensitive: bool)
    decreases MembersSize(a) + MembersSize(b), 1
  {
    a.Member? ==>
      var v := Lookup(b, a.key, caseSensitive);
      v.Some? && Compare(doubles, a.value, v.value, caseSensitive) && Covered(doubles, a.rest, b, caseSensitive)
  }

  // ---------------------------------------------------------------- what values mean

  /** The meaning of a value: an object is a map, so the order of its members is gone. */
  datatype Meaning =
    | MNull
    | MFalse
    | MTrue
    | MNumber(value: Option<int>)
    | MString(s: CString)
    | MArray(items: seq<Meaning>)
    | MObject(members: map<CString, Meaning>)

  ghost function Mean(doubles: Doubles, v: Value, caseSensitive: bool): Meaning
    decreases v
  {
    match v
    case Null => MNull
    case False => MFalse
    case True => MTrue
    case Number(n) => MNumber(doubles(n))
    case String(s) => MString(s)
    case Array(items) => MArray(MeanItems(doubles, items, caseSensitive))
    case Object(members) => MObject(MeanMembers(doubles, members, caseSensitive))
  }

  ghost function MeanItems(doubles: Doubles, items: Items, caseSensitive: bool): seq<Meaning>
    decreases items
  {
    if items.Nil? then []
    else [Mean(doubles, items.head, caseSensitive)] + MeanItems(doubles, items.tail, caseSensitive)
  }

  /** The first of several members with one key counts. */
  ghost function MeanMembers(doubles: Doubles, members: Members, caseSensitive: bool): map<CString, Meaning>
    decreases members
  {
    if members.End? then map[]
    else MeanMembers(doubles, members.rest, caseSensitive)
           [Canonical(members.key, caseSensitive) := Mean(doubles, members.value, caseSensitive)]
  }

  /** Members that share a key have the same meaning, there are no NaNs, and so on for the children. */
  ghost predicate Coherent(doubles: Doubles, v: Value, caseSensitive: bool)
    decreases v
  {
    match v
    case Number(n) => doubles(n).Some?
    case Array(items) => CoherentItems(doubles, items, caseSensitive)
    case Object(members) => Agree(doubles, members, MeanMembers(doubles, members, caseSensitive), caseSensitive)
    case _ => true
  }

  ghost predicate CoherentItems(doubles: Doubles, items: Items, caseSensitive: bool)
    decreases items
  {
    items.Cons? ==> Coherent(doubles, items.head, caseSensitive) && CoherentItems(doubles, items.tail, caseSensitive)
  }

  /** Every member is coherent and has the meaning that m gives for its key. */
  ghost predicate Agree(doubles: Doubles, members: Members, m: map<CString, Meaning>, caseSensitive: bool)
    decreases members
  {
    members.Member? ==>
      var key := Canonical(members.key, caseSensitive);
      && key in m && m[key] == Mean(doubles, members.value, caseSensitive)
      && Coherent(doubles, members.value, caseSensitive)
      && Agree(doubles, members.rest, m, caseSensitive)
  }

  lemma {:induction false} LookupMeans(doubles: Doubles, members: Members, key: CString, caseSensitive: bool)
    ensures var v, m, k := Lookup(members, key, caseSensitive), MeanMembers(doubles, members, caseSensitive),
                           Canonical(key, caseSensitive);
            && (v.Some? <==> k in m)
            && (v.Some? ==> Mean(doubles, v.value, caseSensitive) == m[k])
    decreases members
  {
    if members.Member? {
      SameKeyIff(key, members.key, caseSensitive);
      LookupMeans(doubles, members.rest, key, caseSensitive);
    }
  }

  lemma {:induction false} LookupIsCoherent(doubles: Doubles, members: Members, m: map<CString, Meaning>, key: CString,
                                            caseSensitive: bool)
    requires Agree(doubles, members, m, caseSensitive)
    ensures var v := Lookup(members, key, caseSensitive); v.Some? ==> Coherent(doubles, v.value, caseSensitive)
    decreases members
  {
    if members.Member? {
      LookupIsCoherent(doubles, members.rest, m, key, caseSensitive);
    }
  }

  /** Members that agree with m have their keys in m. */
  lemma {:induction false} AgreeIsSubmap(doubles: Doubles, members: Members, m: map<CString, Meaning>, caseSensitive: bool)
    requires Agree(doubles, members, m, caseSensitive)
    ensures var d := MeanMembers(doubles, members, caseSensitive);
            forall k :: k in d ==> k in m && d[k] == m[k]
    decreases members
  {
    if members.Member? {
      AgreeIsSubmap(doubles, members.rest, m, caseSensitive);
    }
  }

  lemma {:induction false} EqualMeansCoherent(doubles: Doubles, a: Value, b: Value, caseSensitive: bool)
    requires Compare(doubles, a, b, caseSensitive)
    ensures Mean(doubles, a, caseSensitive) == Mean(doubles, b, caseSensitive)
    ensures Coherent(doubles, a, caseSensitive) && Coherent(doubles, b, caseSensitive)
    decreases Size(a) + Size(b), 0
  {
    if a.Array? {
      EqualItemsMean(doubles, a.items, b.items, caseSensitive);
    } else if a.Object? {
      CoveredAgrees(doubles, a.members, b.members, caseSensitive);
      CoveredAgrees(doubles, b.members, a.members, caseSensitive);
      SameMaps(doubles, a.members, b.members, caseSensitive);
    }
  }

  lemma {:induction false} EqualItemsMean(doubles: Doubles, a: Items, b: Items, caseSensitive: bool)
    requires CompareItems(doubles, a, b, caseSensitive)
    ensures MeanItems(doubles, a, caseSensitive) == MeanItems(doubles, b, caseSensitive)
    ensures CoherentItems(doubles, a, caseSensitive) && CoherentItems(doubles, b, caseSensitive)
    decreases ItemsSize(a) + ItemsSize(b), 1
  {
    if a.Cons? {
      EqualMeansCoherent(doubles, a.head, b.head, caseSensitive);
      EqualItemsMean(doubles, a.tail, b.tail, caseSensitive);
    }
  }

  lemma {:induction false} CoveredAgrees(doubles: Doubles, a: Members, b: Members, caseSensitive: bool)
    requires Covered(doubles, a, b, caseSensitive)
    ensures Agree(doubles, a, MeanMembers(doubles, b, caseSensitive), caseSensitive)
    decreases MembersSize(a) + MembersSize(b), 1
  {
    if a.Member? {
      LookupMeans(doubles, b, a.key, caseSensitive);
      EqualMeansCoherent(doubles, a.value, Lookup(b, a.key, caseSensitive).value, caseSensitive);
      CoveredAgrees(doubles, a.rest, b, caseSensitive);
    }
  }

  lemma SameMaps(doubles: Doubles, a: Members, b: Members, caseSensitive: bool)
    requires Agree(doubles, a, MeanMembers(doubles, b, caseSensitive), caseSensitive)
    requires Agree(doubles, b, MeanMembers(doubles, a, caseSensitive), caseSensitive)
    ensures MeanMembers(doubles, a, caseSensitive) == MeanMembers(doubles, b, caseSensitive)
  {
    AgreeIsSubmap(doubles, a, MeanMembers(doubles, b, caseSensitive), caseSensitive);
    AgreeIsSubmap(doubles, b, MeanMembers(doubles, a, caseSensitive), caseSensitive);
  }

  lemma {:induction false} SameMeaningIsEqual(doubles: Doubles, a: Value, b: Value, caseSensitive: bool)
    requires Mean(doubles, a, caseSensitive) == Mean(doubles, b, caseSensitive)
    requires Coherent(doubles, a, caseSensitive) && Coherent(doubles, b, caseSensitive)
    ensures Compare(doubles, a, b, caseSensitive)
    decreases Size(a) + Size(b), 0
  {
    if a.Array? {
      SameItemsAreEqual(doubles, a.items, b.items, caseSensitive);
    } else if a.Object? {
      var m := MeanMembers(doubles, a.members, caseSensitive);
      assert m == MeanMembers(doubles, b.members, caseSensitive);
      AgreeingIsCovered(doubles, a.members, b.members, caseSensitive);
      AgreeingIsCovered(doubles, b.members, a.members, caseSensitive);
    }
  }

  lemma {:induction false} SameItemsAreEqual(doubles: Doubles, a: Items, b: Items, caseSensitive: bool)
    requires MeanItems(doubles, a, caseSensitive) == MeanItems(doubles, b, caseSensitive)
    requires CoherentItems(doubles, a, caseSensitive) && CoherentItems(doubles, b, caseSensitive)
    ensures CompareItems(doubles, a, b, caseSensitive)
    decreases ItemsSize(a) + ItemsSize(b), 1
  {
    var s, t := MeanItems(doubles, a, caseSensitive), MeanItems(doubles, b, caseSensitive);
    if a.Cons? && b.Cons? {
      assert s[0] == t[0] && s[1..] == t[1..];
      SameMeaningIsEqual(doubles, a.head, b.head, caseSensitive);
      SameItemsAreEqual(doubles, a.tail, b.tail, caseSensitive);
    }
  }

  lemma {:induction false} AgreeingIsCovered(doubles: Doubles, a: Members, b: Members, caseSensitive: bool)
    requires Agree(doubles, a, MeanMembers(doubles, b, caseSensitive), caseSensitive)
    requires Agree(doubles, b, MeanMembers(doubles, b, caseSensitive), caseSensitive)
    ensures Covered(doubles, a, b, caseSensitive)
    decreases MembersSize(a) + MembersSize(b), 1
  {
    if a.Member? {
      LookupMeans(doubles, b, a.key, caseSensitive);
      LookupIsCoherent(doubles, b, MeanMembers(doubles, b, caseSensitive), a.key, caseSensitive);
      SameMeaningIsEqual(doubles, a.value, Lookup(b, a.key, caseSensitive).value, caseSensitive);
      AgreeingIsCovered(doubles, a.rest, b, caseSensitive);
    }
  }

  // ---------------------------------------------------------------- what the comparison decides

  /** Two trees compare equal if and only if they mean the same and both are coherent. */
  lemma CompareIff(doubles: Doubles, a: Value, b: Value, caseSensitive: bool)
    ensures Compare(doubles, a, b, caseSensitive) <==>
            && Mean(doubles, a, caseSensitive) == Mean(doubles, b, caseSensitive)
            && Coherent(doubles, a, caseSensitive) && Coherent(doubles, b, caseSensitive)
  {
    if Compare(doubles, a, b, caseSensitive) {
      EqualMeansCoherent(doubles, a, b, caseSensitive);
    } else if && Mean(doubles, a, caseSensitive) == Mean(doubles, b, caseSensitive)
              && Coherent(doubles, a, caseSensitive) && Coherent(doubles, b, caseSensitive) {
      SameMeaningIsEqual(doubles, a, b, caseSensitive);
    }
  }

  /** A tree compares equal to a copy of itself if and only if it is coherent. */
  lemma CompareReflexiveIff(doubles: Doubles, a: Value, caseSensitive: bool)
    ensures Compare(doubles, a, a, caseSensitive) <==> Coherent(doubles, a, caseSensitive)
  {
    CompareIff(doubles, a, a, caseSensitive);
  }

  lemma CompareSymmetric(doubles: Doubles, a: Value, b: Value, caseSensitive: bool)
    requires Compare(doubles, a, b, caseSensitive)
    ensures Compare(doubles, b, a, caseSensitive)
  {
    CompareIff(doubles, a, b, caseSensitive);
    CompareIff(doubles, b, a, caseSensitive);
  }

  lemma CompareTransitive(doubles: Doubles, a: Value, b: Value, c: Value, caseSensitive: bool)
    requires Compare(doubles, a, b, caseSensitive) && Compare(doubles, b, c, caseSensitive)
    ensures Compare(doubles, a, c, caseSensitive)
  {
    CompareIff(doubles, a, b, caseSensitive);
    CompareIff(doubles, b, c, caseSensitive);
    CompareIff(doubles, a, c, caseSensitive);
  }

  /** {"x": null, "x": true} is not equal to its own copy. */
  lemma RepeatedKeyBreaksReflexivity(doubles: Doubles)
    ensures var a := Object(Member([0x78], Null, Member([0x78], True, End)));
            !Compare(doubles, a, a, true) && !Coherent(doubles, a, true)
  {
    var a := Object(Member([0x78], Null, Member([0x78], True, End)));
    SameKeyIff([0x78], [0x78], true);
    var rest := a.members.rest;
    assert Lookup(a.members, [0x78], true) == Some(Null);
    assert !Covered(doubles, rest, a.members, true);
    CompareReflexiveIff(doubles, a, true);
  }

  // ---------------------------------------------------------------- distinct keys

  ghost function Keys(members: Members, caseSensitive: bool): set<CString>
    decreases members
  {
    if members.End? then {} else {Canonical(members.key, caseSensitive)} + Keys(members.rest, caseSensitive)
  }

  /** No object has two members with one key. */
  ghost predicate DistinctKeys(v: Value, caseSensitive: bool)
    decreases v
  {
    match v
    case Array(items) => ItemsDistinct(items, caseSensitive)
    case Object(members) => MembersDistinct(members, caseSensitive)
    case _ => true
  }

  ghost predicate ItemsDistinct(items: Items, caseSensitive: bool)
    decreases items
  {
    items.Cons? ==> DistinctKeys(items.head, caseSensitive) && ItemsDistinct(items.tail, caseSensitive)
  }

  ghost predicate MembersDistinct(members: Members, caseSensitive: bool)
    decreases members
  {
    members.Member? ==>
      && Canonical(members.key, caseSensitive) !in Keys(members.rest, caseSensitive)
      && DistinctKeys(members.value, caseSensitive)
      && MembersDistinct(members.rest, caseSensitive)
  }

  /** The doubles that are not NaNs. */
  predicate NoNan(doubles: Doubles, v: Value)
    decreases v
  {
    match v
    case Number(n) => doubles(n).Some?
    case Array(items) => ItemsNoNan(doubles, items)
    case Object(members) => MembersNoNan(doubles, members)
    case _ => true
  }

  predicate ItemsNoNan(doubles: Doubles, items: Items)
    decreases items
  {
    items.Cons? ==> NoNan(doubles, items.head) && ItemsNoNan(doubles, items.tail)
  }

  predicate MembersNoNan(doubles: Doubles, members: Members)
    decreases members
  {
    members.Member? ==> NoNan(doubles, members.value) && MembersNoNan(doubles, members.rest)
  }

  lemma {:induction false} DistinctIsCoherent(doubles: Doubles, v: Value, caseSensitive: bool)
    requires DistinctKeys(v, caseSensitive) && NoNan(doubles, v)
    ensures Coherent(doubles, v, caseSensitive)
    decreases v
  {
    match v
    case Array(items) => ItemsCoherent(doubles, items, caseSensitive);
    case Object(members) =>
      MembersCoherent(doubles, members, MeanMembers(doubles, members, caseSensitive), caseSensitive);
    case _ =>
  }

  lemma {:induction false} ItemsCoherent(doubles: Doubles, items: Items, caseSensitive: bool)
    requires ItemsDistinct(items, caseSensitive) && ItemsNoNan(doubles, items)
    ensures CoherentItems(doubles, items, caseSensitive)
    decreases items
  {
    if items.Cons? {
      DistinctIsCoherent(doubles, items.head, caseSensitive);
      ItemsCoherent(doubles, items.tail, caseSensitive);
    }
  }

  lemma {:induction false} KeysOfMeaning(doubles: Doubles, members: Members, caseSensitive: bool)
    ensures MeanMembers(doubles, members, caseSensitive).Keys == Keys(members, caseSensitive)
    decreases members
  {
    if members.Member? {
      KeysOfMeaning(doubles, members.rest, caseSensitive);
    }
  }

  lemma {:induction false} MembersCoherent(doubles: Doubles, members: Members, m: map<CString, Meaning>, caseSensitive: bool)
    requires MembersDistinct(members, caseSensitive) && MembersNoNan(doubles, members)
    requires var d := MeanMembers(doubles, members, caseSensitive); forall k :: k in d ==> k in m && d[k] == m[k]
    ensures Agree(doubles, members, m, caseSensitive)
    decreases members
  {
    if members.Member? {
      var d, rest := MeanMembers(doubles, members, caseSensitive), MeanMembers(doubles, members.rest, caseSensitive);
      KeysOfMeaning(doubles, members.rest, caseSensitive);
      assert Canonical(members.key, caseSensitive) in d;
      assert forall k :: k in rest ==> k in d && rest[k] == d[k];
      DistinctIsCoherent(doubles, members.value, caseSensitive);
      MembersCoherent(doubles, members.rest, m, caseSensitive);
    }
  }

  /** On trees with distinct keys and without NaNs the comparison is equality of meanings, so an equivalence. */
  lemma CompareOnDistinctKeys(doubles: Doubles, a: Value, b: Value, caseSensitive: bool)
    requires DistinctKeys(a, caseSensitive) && NoNan(doubles, a)
    requires DistinctKeys(b, caseSensitive) && NoNan(doubles, b)
    ensures Compare(doubles, a, b, caseSensitive)
            <==> Mean(doubles, a, caseSensitive) == Mean(doubles, b, caseSensitive)
  {
    DistinctIsCoherent(doubles, a, caseSensitive);
    DistinctIsCoherent(doubles, b, caseSensitive);
    CompareIff(doubles, a, b, caseSensitive);
  }

  // ---------------------------------------------------------------- the order of members

  ghost function Pairs(members: Members): set<(CString, Value)>
    decreases members
  {
    if members.End? then {} else {(members.key, members.value)} + Pairs(members.rest)
  }

  lemma {:induction false} PairIsKey(members: Members, pair: (CString, Value), caseSensitive: bool)
    requires pair in Pairs(members)
    ensures Canonical(pair.0, caseSensitive) in Keys(members, caseSensitive)
    decreases members
  {
    if members.Member? && pair != (members.key, members.value) {
      PairIsKey(members.rest, pair, caseSensitive);
    }
  }

  lemma {:induction false} PairMeans(doubles: Doubles, members: Members, pair: (CString, Value), caseSensitive: bool)
    requires MembersDistinct(members, caseSensitive) && pair in Pairs(members)
    ensures var m, k := MeanMembers(doubles, members, caseSensitive), Canonical(pair.0, caseSensitive);
            k in m && m[k] == Mean(doubles, pair.1, caseSensitive)
    decreases members
  {
    if pair != (members.key, members.value) {
      PairIsKey(members.rest, pair, caseSensitive);
      PairMeans(doubles, members.rest, pair, caseSensitive);
    }
  }

  lemma {:induction false} PairsGiveAgreement(doubles: Doubles, a: Members, m: Members, caseSensitive: bool)
    requires Pairs(a) <= Pairs(m) && MembersDistinct(m, caseSensitive) && MembersDistinct(a, caseSensitive)
    requires MembersNoNan(doubles, a)
    ensures Agree(doubles, a, MeanMembers(doubles, m, caseSensitive), caseSensitive)
    decreases a
  {
    if a.Member? {
      PairMeans(doubles, m, (a.key, a.value), caseSensitive);
      DistinctIsCoherent(doubles, a.value, caseSensitive);
      PairsGiveAgreement(doubles, a.rest, m, caseSensitive);
    }
  }

  /** Objects with the same members in any order compare equal. */
  lemma OrderIsIgnored(doubles: Doubles, a: Members, b: Members, caseSensitive: bool)
    requires MembersDistinct(a, caseSensitive) && MembersNoNan(doubles, a)
    requires MembersDistinct(b, caseSensitive) && MembersNoNan(doubles, b)
    requires Pairs(a) == Pairs(b)
    ensures Compare(doubles, Object(a), Object(b), caseSensitive)
  {
    PairsGiveAgreement(doubles, a, b, caseSensitive);
    PairsGiveAgreement(doubles, b, a, caseSensitive);
    SameMaps(doubles, a, b, caseSensitive);
    CompareOnDistinctKeys(doubles, Object(a), Object(b), caseSensitive);
  }
}
