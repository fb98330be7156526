/** Two values have the same canonical text exactly when they are equivalent. */
module CanonicalLaws {
  import opened Utf16
  import opened JsonTree
  import opened Canonical

  // ---- Sorting by text ----

  function Texts(ts: seq<Tree>): (r: seq<string>)
    ensures |r| == |ts| && forall i | 0 <= i < |ts| :: r[i] == Print(ts[i])
  {
    seq(|ts|, i requires 0 <= i < |ts| => Print(ts[i]))
  }

  function Insert(w: string, sorted: seq<string>): seq<string> {
    if sorted == [] then [w]
    else if JsLess(sorted[0], w) then [sorted[0]] + Insert(w, sorted[1..])
    else [w] + sorted
  }

  lemma TextsCons(t: Tree, ts: seq<Tree>)
    ensures Texts([t] + ts) == [Print(t)] + Texts(ts)
  {}

  /** Inserting a tree by text inserts its text. */
  lemma {:induction false} TextsInsert(t: Tree, sorted: seq<Tree>)
    ensures Texts(InsertTree(t, sorted)) == Insert(Print(t), Texts(sorted))
  {
    hide JsLess, Print;
    if sorted == [] {
      assert Texts([t]) == [Print(t)];
    } else {
      TextsCons(sorted[0], sorted[1..]);
      assert sorted == [sorted[0]] + sorted[1..];
      assert Texts(sorted)[1..] == Texts(sorted[1..]);
      TextsInsert(t, sorted[1..]);
      TextsCons(sorted[0], InsertTree(t, sorted[1..]));
      TextsCons(t, sorted);
    }
  }

  lemma {:induction false} InsertSorts(w: string, sorted: seq<string>)
    requires Sorted(sorted)
    ensures Sorted(Insert(w, sorted))
    ensures multiset(Insert(w, sorted)) == multiset(sorted) + multiset{w}
  {
    hide LessEq, JsLess, Sorted;
    if sorted == [] {
      SortedSingle(w);
    } else {
      var h, rest := sorted[0], sorted[1..];
      assert sorted == [h] + rest;
      if JsLess(h, w) {
        SortedTail(h, rest);
        InsertSorts(w, rest);
        LessIsLessEq(h, w);
        SortedCons(h, Insert(w, rest), multiset(rest) + multiset{w});
      } else {
        NotLess(h, w);
        SortedPrepend(w, sorted);
      }
    }
  }

  lemma SortedSingle(a: string)
    ensures Sorted([a])
  {}

  lemma LessIsLessEq(a: string, b: string)
    requires JsLess(a, b)
    ensures LessEq(a, b)
  {
    hide JsLess;
    JsLessStrictTotal(a, b, a);
  }

  lemma NotLess(a: string, b: string)
    requires !JsLess(a, b)
    ensures LessEq(b, a)
  {}

  lemma SortedTail(a: string, ss: seq<string>)
    requires Sorted([a] + ss)
    ensures Sorted(ss) && forall s | s in ss :: LessEq(a, s)
  {
    hide LessEq;
    var all := [a] + ss;
    forall i, j | 0 <= i < j < |ss| ensures LessEq(ss[i], ss[j]) {
      assert all[i + 1] == ss[i] && all[j + 1] == ss[j];
    }
    forall s | s in ss ensures LessEq(a, s) {
      var j :| 0 <= j < |ss| && ss[j] == s;
      assert all[0] == a && all[j + 1] == s;
    }
  }

  lemma SortedCons(a: string, ss: seq<string>, m: multiset<string>)
    requires Sorted(ss) && multiset(ss) == m && forall s | s in m :: LessEq(a, s)
    ensures Sorted([a] + ss)
  {}

  lemma SortedPrepend(a: string, ss: seq<string>)
    requires ss != [] && Sorted(ss) && LessEq(a, ss[0])
    ensures Sorted([a] + ss)
  {
    hide LessEq;
    forall s | s in multiset(ss) ensures LessEq(a, s) {
      var j :| 0 <= j < |ss| && ss[j] == s;
      if j > 0 { LessEqTotal(a, ss[0], ss[j]); }
    }
    SortedCons(a, ss, multiset(ss));
  }

  lemma {:induction false} SortTreesSorts(ts: seq<Tree>)
    ensures Sorted(Texts(SortTrees(ts)))
    ensures multiset(Texts(SortTrees(ts))) == multiset(Texts(ts))
  {
    hide Print, LessEq, Insert, InsertTree;
    if ts != [] {
      SortTreesSorts(ts[1..]);
      TextsInsert(ts[0], SortTrees(ts[1..]));
      InsertSorts(Print(ts[0]), Texts(SortTrees(ts[1..])));
      assert ts == [ts[0]] + ts[1..];
      TextsCons(ts[0], ts[1..]);
    }
  }

  lemma SameFirst(a: seq<string>, b: seq<string>)
    requires Sorted(a) && Sorted(b) && a != [] && b != [] && multiset(a) == multiset(b)
    ensures a[0] == b[0]
  {
    hide LessEq;
    assert a[0] in multiset(b) && b[0] in multiset(a);
    var i :| 0 <= i < |a| && a[i] == b[0];
    var j :| 0 <= j < |b| && b[j] == a[0];
    LessEqTotal(a[0], b[0], a[0]);
  }

  lemma MultisetTail(a: seq<string>)
    requires a != []
    ensures multiset(a[1..]) == multiset(a) - multiset{a[0]}
  {
    assert a == [a[0]] + a[1..];
  }

  lemma TailSorted(a: seq<string>)
    requires a != [] && Sorted(a)
    ensures Sorted(a[1..])
  {}

  /** There is one sorted arrangement of a multiset of strings. */
  lemma {:induction false} SortedUnique(a: seq<string>, b: seq<string>)
    requires Sorted(a) && Sorted(b) && multiset(a) == multiset(b)
    ensures a == b
  {
    hide Sorted;
    assert |a| == |multiset(a)| == |b|;
    if a != [] {
      SameFirst(a, b);
      MultisetTail(a);
      MultisetTail(b);
      TailSorted(a);
      TailSorted(b);
      SortedUnique(a[1..], b[1..]);
      assert a == [a[0]] + a[1..] && b == [b[0]] + b[1..];
    }
  }

  /** The text of an array depends only on its items' texts. */
  lemma {:induction false} SameTextsPrint(xs: seq<Tree>, ys: seq<Tree>)
    requires Texts(xs) == Texts(ys)
    ensures Print(TArr(xs)) == Print(TArr(ys))
    ensures xs != [] ==> PrintItems(xs) == PrintItems(ys)
  {
    assert |xs| == |Texts(xs)| == |ys|;
    if xs != [] {
      assert Print(xs[0]) == Texts(xs)[0] == Print(ys[0]);
      assert Texts(xs[1..]) == Texts(xs)[1..] == Texts(ys[1..]);
      SameTextsPrint(xs[1..], ys[1..]);
    }
  }

  // ---- Equivalent values print alike ----

  lemma CanonicalItemsAt(items: seq<Value>)
    ensures |CanonicalItems(items)| == |items|
    ensures forall i | 0 <= i < |items| :: CanonicalItems(items)[i] == CanonicalValue(items[i])
  {}

  lemma ItemTexts(items: seq<Value>)
    ensures |Texts(CanonicalItems(items))| == |items|
    ensures forall i | 0 <= i < |items| :: Texts(CanonicalItems(items))[i] == CanonicalStringify(items[i])
  {
    hide CanonicalValue, Print;
    CanonicalItemsAt(items);
  }

  lemma ItemTextsWithout(items: seq<Value>, j: nat)
    requires j < |items|
    ensures multiset(Texts(CanonicalItems(items))) ==
            multiset(Texts(CanonicalItems(Without(items, j)))) + multiset{CanonicalStringify(items[j])}
  {
    hide CanonicalValue, CanonicalItems, CanonicalStringify, Print;
    ItemTexts(items);
    ItemTexts(Without(items, j));
    hide Texts;
    var all, rest := Texts(CanonicalItems(items)), Texts(CanonicalItems(Without(items, j)));
    MultisetWithout(all, j);
    assert forall i | 0 <= i < |items| - 1 :: Without(items, j)[i] == items[if i < j then i else i + 1];
    assert rest == Without(all, j);
  }

  lemma MultisetWithout<T>(all: seq<T>, j: nat)
    requires j < |all|
    ensures multiset(all) == multiset(Without(all, j)) + multiset{all[j]}
  {
    assert all == all[..j] + ([all[j]] + all[j + 1..]);
  }

  lemma {:induction false} SameItemsTexts(xs: seq<Value>, ys: seq<Value>)
    requires SameItems(xs, ys)
    ensures multiset(Texts(CanonicalItems(xs))) == multiset(Texts(CanonicalItems(ys)))
    decreases xs, 0
  {
    hide CanonicalValue, CanonicalItems, CanonicalStringify, Print, Equivalent, Texts;
    if xs == [] {
      assert ys == [];
    } else {
      var j :| 0 <= j < |ys| && Equivalent(xs[0], ys[j]) && SameItems(xs[1..], Without(ys, j));
      EquivalentPrintAlike(xs[0], ys[j]);
      SameItemsTexts(xs[1..], Without(ys, j));
      ItemTextsWithout(xs, 0);
      assert Without(xs, 0) == xs[1..];
      ItemTextsWithout(ys, j);
    }
  }

  lemma {:induction false} SameMembers(a: Value, b: Value, keys: seq<string>)
    requires a.Obj? && b.Obj? && (forall k | k in keys :: k in a.fields && k in b.fields && Equivalent(a.fields[k], b.fields[k]))
    ensures |CanonicalMembers(a, keys)| == |CanonicalMembers(b, keys)| == |keys|
    ensures keys != [] ==> CanonicalMembers(a, keys) != [] &&
                           PrintMembers(CanonicalMembers(a, keys)) == PrintMembers(CanonicalMembers(b, keys))
    decreases a, 0, keys
  {
    hide CanonicalValue, Equivalent, Print, Quote;
    if keys != [] {
      var k := keys[0];
      EquivalentPrintAlike(a.fields[k], b.fields[k]);
      StringifyIs(a.fields[k]);
      StringifyIs(b.fields[k]);
      SameMembers(a, b, keys[1..]);
      var ma, mb := CanonicalMembers(a, keys), CanonicalMembers(b, keys);
      assert ma[1..] == CanonicalMembers(a, keys[1..]) && mb[1..] == CanonicalMembers(b, keys[1..]);
    }
  }

  lemma StringifyIs(v: Value)
    ensures CanonicalStringify(v) == Print(CanonicalValue(v))
  {}

  lemma {:induction false} EquivalentPrintAlike(a: Value, b: Value)
    requires Equivalent(a, b)
    ensures CanonicalStringify(a) == CanonicalStringify(b)
    decreases a, 1
  {
    if a.Arr? && b.Arr? {
      ArraysPrintAlike(a.items, b.items);
    } else if a.Obj? && b.Obj? {
      ObjectsPrintAlike(a, b);
    }
  }

  lemma {:induction false} ArraysPrintAlike(xs: seq<Value>, ys: seq<Value>)
    requires SameItems(xs, ys)
    ensures CanonicalStringify(Arr(xs)) == CanonicalStringify(Arr(ys))
    decreases xs, 1
  {
    hide SameItems, Print, Texts, Sorted, SortTrees, CanonicalItems;
    SameItemsTexts(xs, ys);
    SortTreesSorts(CanonicalItems(xs));
    SortTreesSorts(CanonicalItems(ys));
    var tx, ty := SortTrees(CanonicalItems(xs)), SortTrees(CanonicalItems(ys));
    SortedUnique(Texts(tx), Texts(ty));
    SameTextsPrint(tx, ty);
  }

  lemma {:induction false} ObjectsPrintAlike(a: Value, b: Value)
    requires a.Obj? && b.Obj? && KeptKeys(a.fields) == KeptKeys(b.fields)
    requires forall k | k in KeptKeys(a.fields) :: Equivalent(a.fields[k], b.fields[k])
    ensures CanonicalStringify(a) == CanonicalStringify(b)
    decreases a, 0
  {
    hide Equivalent, SortedKeys, CanonicalMembers, PrintMembers;
    var keys := SortedKeys(KeptKeys(a.fields));
    SameMembers(a, b, keys);
    PrintObject(CanonicalMembers(a, keys));
    PrintObject(CanonicalMembers(b, keys));
  }

  lemma PrintObject(members: seq<Member>)
    ensures Print(TObj(members)) == if members == [] then "{}" else "{" + PrintMembers(members)
  {}

  // ---- The order of members and items ----

  lemma {:induction false} MembersAre(v: Value, keys: seq<string>)
    requires v.Obj? && forall k | k in keys :: k in v.fields
    ensures var ms := CanonicalMembers(v, keys);
            |ms| == |keys| && forall i | 0 <= i < |ms| :: ms[i] == Member(keys[i], CanonicalValue(v.fields[keys[i]]))
    decreases keys
  {
    if keys != [] {
      hide CanonicalValue;
      MembersAre(v, keys[1..]);
    }
  }

  /** An object's members are those of its fields that are not volatile, in ascending order of
      their keys' code units. */
  lemma ObjectAscends(v: Value)
    requires v.Obj?
    ensures CanonicalValue(v).TObj?
    ensures var ms := CanonicalValue(v).members;
            && (forall i, j | 0 <= i < j < |ms| :: Precedes(Encode(ms[i].key), Encode(ms[j].key)))
            && (forall i | 0 <= i < |ms| :: ms[i].key in v.fields && ms[i].value == CanonicalValue(v.fields[ms[i].key]))
            && (forall k | k in v.fields :: (exists i | 0 <= i < |ms| :: ms[i].key == k) <==> k != "sourcePointer" && k != "evidence")
  {
    var keys := SortedKeys(KeptKeys(v.fields));
    hide *;
    ObjectIs(v, keys);
    KeysAscend(v, keys);
    MembersAre(v, keys);
  }

  lemma ObjectIs(v: Value, keys: seq<string>)
    requires v.Obj? && keys == SortedKeys(KeptKeys(v.fields))
    ensures CanonicalValue(v) == TObj(CanonicalMembers(v, keys)) && forall k | k in keys :: k in v.fields
  {
    hide CanonicalMembers, SortedKeys;
  }

  lemma KeysAscend(v: Value, keys: seq<string>)
    requires v.Obj? && keys == SortedKeys(KeptKeys(v.fields))
    ensures forall i, j | 0 <= i < j < |keys| :: Precedes(Encode(keys[i]), Encode(keys[j]))
    ensures forall k | k in v.fields :: (exists i | 0 <= i < |keys| :: keys[i] == k) <==> k != "sourcePointer" && k != "evidence"
  {
    SortedKeysInOrder(KeptKeys(v.fields));
    hide Encode, JsLess, LessEq, SortedKeys, Precedes;
    forall i, j | 0 <= i < j < |keys| ensures Precedes(Encode(keys[i]), Encode(keys[j])) { Ascends(keys[i], keys[j]); }
    forall k | k in v.fields ensures (exists i | 0 <= i < |keys| :: keys[i] == k) <==> k != "sourcePointer" && k != "evidence" {
      assert k in keys <==> k in KeptKeys(v.fields);
    }
  }

  lemma Ascends(a: string, b: string)
    requires LessEq(a, b) && a != b
    ensures Precedes(Encode(a), Encode(b))
  {
    JsLessStrictTotal(a, b, a);
    JsLessIs(a, b);
  }

  /** An array's items are those of the value, in ascending order of their texts' code units. */
  lemma ArrayAscends(v: Value)
    requires v.Arr?
    ensures CanonicalValue(v).TArr?
    ensures var ts := CanonicalValue(v).items;
            && (forall i, j | 0 <= i < j < |ts| :: !Precedes(Encode(Print(ts[j])), Encode(Print(ts[i]))))
            && multiset(Texts(ts)) == multiset(Texts(CanonicalItems(v.items)))
  {
    hide Print, Encode, JsLess, SortTrees, CanonicalItems;
    SortTreesSorts(CanonicalItems(v.items));
    var ts := CanonicalValue(v).items;
    forall i, j | 0 <= i < j < |ts| ensures !Precedes(Encode(Print(ts[j])), Encode(Print(ts[i]))) {
      assert LessEq(Texts(ts)[i], Texts(ts)[j]);
      JsLessIs(Print(ts[j]), Print(ts[i]));
    }
  }
}
