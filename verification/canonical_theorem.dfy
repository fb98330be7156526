/** Canonical text determines a value up to equivalence, because the bounded parser
    reads it back. */
module CanonicalTheorem {
  import opened Text
  import opened Utf16
  import opened JsNumber
  import opened JsonTree
  import opened JsonParser
  import opened JsonRoundTrip
  import opened Canonical
  import opened CanonicalLaws

  // ---- Printing is injective on plain trees ----

  function Height(t: Tree): nat
    decreases t
  {
    match t
    case TArr(items) => 1 + ItemsHeight(items)
    case TObj(members) => 1 + MembersHeight(members)
    case _ => 0
  }

  function Max(a: nat, b: nat): nat { if a < b then b else a }

  function ItemsHeight(items: seq<Tree>): (h: nat)
    ensures forall i | 0 <= i < |items| :: Height(items[i]) <= h
    decreases items
  {
    if items == [] then 0 else Max(Height(items[0]), ItemsHeight(items[1..]))
  }

  function MembersHeight(members: seq<Member>): (h: nat)
    ensures forall i | 0 <= i < |members| :: Height(members[i].value) <= h
    decreases members
  {
    if members == [] then 0 else Max(Height(members[0].value), MembersHeight(members[1..]))
  }

  lemma {:induction false} HeightBounds(t: Tree, depth: nat, max: int)
    requires depth + Height(t) <= max
    ensures WithinDepth(t, depth, max)
    decreases t
  {
    match t
    case TArr(items) =>
      forall i | 0 <= i < |items| ensures WithinDepth(items[i], depth + 1, max) { HeightBounds(items[i], depth + 1, max); }
    case TObj(members) =>
      forall i | 0 <= i < |members| ensures WithinDepth(members[i].value, depth + 1, max) {
        HeightBounds(members[i].value, depth + 1, max);
      }
    case _ =>
  }

  /** A parser without rounding. */
  const EXACTLY: Number -> Option<Number> := n => Some(n)

  lemma {:induction false} ExactlyRepresentable(t: Tree)
    ensures Representable(t, EXACTLY)
    decreases t
  {
    match t
    case TArr(items) =>
      forall i | 0 <= i < |items| ensures Representable(items[i], EXACTLY) { ExactlyRepresentable(items[i]); }
    case TObj(members) =>
      forall i | 0 <= i < |members| ensures Representable(members[i].value, EXACTLY) { ExactlyRepresentable(members[i].value); }
    case _ =>
  }

  lemma ReadsBackWhenRoomy(t: Tree, lim: Limits, w: string)
    requires Plain(t) && w == Print(t) && lim.round == EXACTLY
    requires ByteLength(w) <= lim.maxBytes && Height(t) <= lim.maxDepth && Count(t) <= lim.maxNodes
    ensures ParseText(w, lim) == Ok(t, |w|, Count(t))
  {
    hide ParseText, Print, Plain, Representable, WithinDepth;
    ExactlyRepresentable(t);
    HeightBounds(t, 0, lim.maxDepth);
    RoundTrip(t, lim, w);
  }

  /** Different plain trees have different texts. */
  lemma PrintInjective(t: Tree, u: Tree)
    requires Plain(t) && Plain(u) && Print(t) == Print(u)
    ensures t == u
  {
    hide ParseText, Print, Plain, Height, Count, ByteLength;
    var w := Print(t);
    var lim := Limits(ByteLength(w), Max(Height(t), Height(u)), Max(Count(t), Count(u)), EXACTLY);
    ReadsBackWhenRoomy(t, lim, w);
    ReadsBackWhenRoomy(u, lim, w);
  }

  // ---- Non-finite numbers print as null ----

  function Clean(t: Tree): Tree
    decreases t
  {
    match t
    case TNum(n) => if n.NonFinite? then TNull else t
    case TArr(items) => TArr(CleanItems(items))
    case TObj(members) => TObj(CleanMembers(members))
    case _ => t
  }

  function CleanItems(items: seq<Tree>): (r: seq<Tree>)
    ensures |r| == |items| && forall i | 0 <= i < |items| :: r[i] == Clean(items[i])
    decreases items
  {
    if items == [] then [] else [Clean(items[0])] + CleanItems(items[1..])
  }

  function CleanMembers(members: seq<Member>): (r: seq<Member>)
    ensures |r| == |members|
    ensures forall i | 0 <= i < |members| :: r[i] == Member(members[i].key, Clean(members[i].value))
    decreases members
  {
    if members == [] then [] else [Member(members[0].key, Clean(members[0].value))] + CleanMembers(members[1..])
  }

  lemma {:induction false} PrintClean(t: Tree)
    ensures Print(Clean(t)) == Print(t)
    decreases t, 1
  {
    match t
    case TArr(items) =>
      ItemsPrintClean(items);
    case TObj(members) => MembersPrintClean(members);
    case _ =>
  }

  lemma {:induction false} ItemsPrintClean(items: seq<Tree>)
    ensures items != [] ==> PrintItems(CleanItems(items)) == PrintItems(items)
    decreases items, 0
  {
    hide Print;
    if items != [] {
      PrintClean(items[0]);
      ItemsPrintClean(items[1..]);
      assert CleanItems(items)[1..] == CleanItems(items[1..]);
    }
  }

  lemma {:induction false} MembersPrintClean(members: seq<Member>)
    ensures members != [] ==> PrintMembers(CleanMembers(members)) == PrintMembers(members)
    decreases members, 0
  {
    hide Print, Quote;
    if members != [] {
      PrintClean(members[0].value);
      MembersPrintClean(members[1..]);
      assert CleanMembers(members)[1..] == CleanMembers(members[1..]);
    }
  }

  // ---- The canonical tree is plain, once cleaned ----

  lemma {:induction false} InsertTreeElements(t: Tree, sorted: seq<Tree>)
    ensures forall x :: x in InsertTree(t, sorted) <==> x == t || x in sorted
  {
    hide JsLess, Print;
    if sorted != [] {
      assert sorted == [sorted[0]] + sorted[1..];
      InsertTreeElements(t, sorted[1..]);
    }
  }

  lemma {:induction false} SortTreesElements(ts: seq<Tree>)
    ensures forall x :: x in SortTrees(ts) <==> x in ts
  {
    if ts != [] {
      assert ts == [ts[0]] + ts[1..];
      SortTreesElements(ts[1..]);
      InsertTreeElements(ts[0], SortTrees(ts[1..]));
    }
  }

  lemma {:induction false} MembersAre(v: Value, keys: seq<string>)
    requires v.Obj? && forall k | k in keys :: k in v.fields
    ensures |CanonicalMembers(v, keys)| == |keys|
    ensures forall i | 0 <= i < |keys| ::
              CanonicalMembers(v, keys)[i] == Member(keys[i], CanonicalValue(v.fields[keys[i]]))
    decreases |keys|
  {
    hide CanonicalValue;
    if keys != [] { MembersAre(v, keys[1..]); }
  }

  lemma {:induction false} CanonicalPlain(v: Value)
    ensures Plain(Clean(CanonicalValue(v)))
    decreases v
  {
    match v
    case Arr(items) =>
      var ts := CanonicalItems(items);
      SortTreesElements(ts);
      CanonicalItemsAt(items);
      forall i | 0 <= i < |SortTrees(ts)| ensures Plain(Clean(SortTrees(ts)[i])) {
        assert SortTrees(ts)[i] in ts;
        var j :| 0 <= j < |ts| && ts[j] == SortTrees(ts)[i];
        CanonicalPlain(items[j]);
      }
    case Obj(fields) => ObjectPlain(v);
    case _ =>
  }

  lemma {:induction false} ObjectPlain(v: Value)
    requires v.Obj?
    ensures Plain(Clean(CanonicalValue(v)))
    decreases v, 0
  {
    hide SortedKeys, CanonicalMembers;
    var keys := SortedKeys(KeptKeys(v.fields));
    SortedKeysInOrder(KeptKeys(v.fields));
    MembersAre(v, keys);
    forall i | 0 <= i < |keys| ensures Plain(Clean(CanonicalValue(v.fields[keys[i]]))) {
      CanonicalPlain(v.fields[keys[i]]);
    }
  }

  // ---- Values that print alike are equivalent ----

  lemma CleanEqual(a: Value, b: Value)
    requires CanonicalStringify(a) == CanonicalStringify(b)
    ensures Clean(CanonicalValue(a)) == Clean(CanonicalValue(b))
  {
    hide Clean, CanonicalValue, Print, Plain;
    CanonicalPlain(a);
    CanonicalPlain(b);
    PrintClean(CanonicalValue(a));
    PrintClean(CanonicalValue(b));
    PrintInjective(Clean(CanonicalValue(a)), Clean(CanonicalValue(b)));
  }

  lemma {:induction false} PrintAlikeEquivalent(a: Value, b: Value)
    requires CanonicalStringify(a) == CanonicalStringify(b)
    ensures Equivalent(a, b)
    decreases a, 2
  {
    hide CanonicalStringify, SortTrees, CanonicalItems, CanonicalMembers, CleanItems, CleanMembers, SameItems;
    CleanEqual(a, b);
    if a.Arr? {
      ArraysEquivalent(a.items, b.items);
    } else if a.Obj? {
      ObjectsEquivalent(a, b);
    }
  }

  lemma CleanItemsTexts(xs: seq<Tree>, ys: seq<Tree>)
    requires CleanItems(xs) == CleanItems(ys)
    ensures Texts(xs) == Texts(ys)
  {
    hide Clean, Print;
    assert |xs| == |CleanItems(xs)| == |ys|;
    forall i | 0 <= i < |xs| ensures Print(xs[i]) == Print(ys[i]) {
      PrintClean(xs[i]);
      PrintClean(ys[i]);
      assert CleanItems(xs)[i] == CleanItems(ys)[i];
    }
  }

  lemma {:induction false} ArraysEquivalent(xs: seq<Value>, ys: seq<Value>)
    requires CleanItems(SortTrees(CanonicalItems(xs))) == CleanItems(SortTrees(CanonicalItems(ys)))
    ensures SameItems(xs, ys)
    decreases xs, 1
  {
    hide SameItems, CanonicalItems, SortTrees, CleanItems, Texts;
    CleanItemsTexts(SortTrees(CanonicalItems(xs)), SortTrees(CanonicalItems(ys)));
    SortTreesSorts(CanonicalItems(xs));
    SortTreesSorts(CanonicalItems(ys));
    MatchItems(xs, ys);
  }

  /** Equal multisets of texts give a matching of the items. */
  lemma {:induction false} MatchItems(xs: seq<Value>, ys: seq<Value>)
    requires multiset(Texts(CanonicalItems(xs))) == multiset(Texts(CanonicalItems(ys)))
    ensures SameItems(xs, ys)
    decreases xs, 0
  {
    hide Equivalent, CanonicalItems, CanonicalStringify, Texts;
    ItemTexts(xs);
    ItemTexts(ys);
    var tx, ty := Texts(CanonicalItems(xs)), Texts(CanonicalItems(ys));
    assert |tx| == |multiset(tx)| == |multiset(ty)| == |ty|;
    if xs != [] {
      assert tx[0] in multiset(ty);
      var j :| 0 <= j < |ty| && ty[j] == tx[0];
      PrintAlikeEquivalent(xs[0], ys[j]);
      ItemTextsWithout(xs, 0);
      ItemTextsWithout(ys, j);
      assert Without(xs, 0) == xs[1..];
      assert multiset(Texts(CanonicalItems(xs[1..]))) == multiset(tx) - multiset{tx[0]};
      assert multiset(Texts(CanonicalItems(Without(ys, j)))) == multiset(ty) - multiset{tx[0]};
      MatchItems(xs[1..], Without(ys, j));
    }
  }

  lemma CleanMembersAlike(ms: seq<Member>, ns: seq<Member>)
    requires CleanMembers(ms) == CleanMembers(ns)
    ensures |ms| == |ns|
    ensures forall i | 0 <= i < |ms| :: ms[i].key == ns[i].key && Print(ms[i].value) == Print(ns[i].value)
  {
    hide Clean, Print;
    assert |ms| == |CleanMembers(ms)| == |ns|;
    forall i | 0 <= i < |ms| ensures ms[i].key == ns[i].key && Print(ms[i].value) == Print(ns[i].value) {
      PrintClean(ms[i].value);
      PrintClean(ns[i].value);
      assert CleanMembers(ms)[i] == CleanMembers(ns)[i];
    }
  }

  lemma SameKeys(a: Value, b: Value) returns (keys: seq<string>)
    requires a.Obj? && b.Obj? && Clean(CanonicalValue(a)) == Clean(CanonicalValue(b))
    ensures KeptKeys(a.fields) == KeptKeys(b.fields) && forall k :: k in keys <==> k in KeptKeys(a.fields)
    ensures forall k | k in keys :: CanonicalStringify(a.fields[k]) == CanonicalStringify(b.fields[k])
  {
    hide SortedKeys, CanonicalMembers, CleanMembers, Print;
    keys := SortedKeys(KeptKeys(a.fields));
    var keys' := SortedKeys(KeptKeys(b.fields));
    var ma, mb := CanonicalMembers(a, keys), CanonicalMembers(b, keys');
    assert CleanMembers(ma) == CleanMembers(mb);
    MembersAre(a, keys);
    MembersAre(b, keys');
    CleanMembersAlike(ma, mb);
    assert keys == keys';
    assert forall k :: k in KeptKeys(a.fields) <==> k in KeptKeys(b.fields);
    forall k | k in keys ensures CanonicalStringify(a.fields[k]) == CanonicalStringify(b.fields[k]) {
      var i :| 0 <= i < |keys| && keys[i] == k;
      assert ma[i].value == CanonicalValue(a.fields[k]) && mb[i].value == CanonicalValue(b.fields[k]);
    }
  }

  lemma {:induction false} ObjectsEquivalent(a: Value, b: Value)
    requires a.Obj? && b.Obj? && Clean(CanonicalValue(a)) == Clean(CanonicalValue(b))
    ensures KeptKeys(a.fields) == KeptKeys(b.fields)
    ensures forall k | k in KeptKeys(a.fields) :: Equivalent(a.fields[k], b.fields[k])
    decreases a, 1
  {
    hide Equivalent, CanonicalValue, CanonicalStringify, Clean;
    var keys := SameKeys(a, b);
    forall k | k in KeptKeys(a.fields) ensures Equivalent(a.fields[k], b.fields[k]) {
      PrintAlikeEquivalent(a.fields[k], b.fields[k]);
    }
  }

  /** The canonical text characterises the equivalence. */
  lemma CanonicalIff(a: Value, b: Value)
    ensures CanonicalStringify(a) == CanonicalStringify(b) <==> Equivalent(a, b)
  {
    hide CanonicalStringify, Equivalent;
    if Equivalent(a, b) { EquivalentPrintAlike(a, b); }
    if CanonicalStringify(a) == CanonicalStringify(b) { PrintAlikeEquivalent(a, b); }
  }

  // ---- Reading canonical text ----

  /** The unordered value of an ordered tree. */
  function ValueOf(t: Tree): Value
    decreases t
  {
    match t
    case TNull => Null
    case TBool(b) => Bool(b)
    case TStr(s) => Str(s)
    case TNum(n) => Num(n)
    case TArr(items) => Arr(seq(|items|, i requires 0 <= i < |items| => ValueOf(items[i])))
    case TObj(members) => Obj(FieldsOf(members))
  }

  function FieldsOf(members: seq<Member>): (r: map<string, Value>)
    ensures forall k :: k in r ==> HasKey(members, k)
    ensures forall i | 0 <= i < |members| :: members[i].key in r
    decreases members
  {
    if members == [] then map[] else FieldsOf(members[1..])[members[0].key := ValueOf(members[0].value)]
  }

  lemma {:induction false} FieldsOfAt(members: seq<Member>, i: nat)
    requires DistinctKeys(members) && i < |members|
    ensures members[i].key in FieldsOf(members) && FieldsOf(members)[members[i].key] == ValueOf(members[i].value)
    decreases members
  {
    hide ValueOf;
    if i > 0 { FieldsOfAt(members[1..], i - 1); }
  }

  /** What reading a canonical text gives. */
  ghost function Reread(v: Value): Value { ValueOf(Clean(CanonicalValue(v))) }

  lemma CanonicalTextParses(v: Value, lim: Limits, w: string)
    requires w == CanonicalStringify(v) && Fits(Clean(CanonicalValue(v)), 0, 0, lim) && ByteLength(w) <= lim.maxBytes
    ensures ParseText(w, lim).Ok? && ValueOf(ParseText(w, lim).value) == Reread(v)
  {
    hide ParseText, Print, Clean, CanonicalValue, Fits, ValueOf;
    PrintClean(CanonicalValue(v));
    RoundTrip(Clean(CanonicalValue(v)), lim, w);
  }

  /** Canonicalising what was read from canonical text changes nothing. */
  lemma {:induction false} CanonicalIdempotent(v: Value)
    ensures CanonicalStringify(Reread(v)) == CanonicalStringify(v)
    decreases v, 1
  {
    match v
    case Arr(items) => ArrayIdempotent(items);
    case Obj(fields) => ObjectIdempotent(v);
    case _ =>
  }

  lemma {:induction false} ArrayIdempotent(items: seq<Value>)
    ensures CanonicalStringify(Reread(Arr(items))) == CanonicalStringify(Arr(items))
    decreases items
  {
    hide Texts, SortTrees, CanonicalItems, Sorted, Print;
    var ts := CanonicalItems(items);
    var sorted := SortTrees(ts);
    SortTreesElements(ts);
    CanonicalItemsAt(items);
    var items' := seq(|sorted|, i requires 0 <= i < |sorted| => ValueOf(Clean(sorted[i])));
    assert CleanItems(sorted) == seq(|sorted|, i requires 0 <= i < |sorted| => Clean(sorted[i]));
    assert Reread(Arr(items)) == Arr(items');
    forall i | 0 <= i < |sorted| ensures CanonicalStringify(items'[i]) == Print(sorted[i]) {
      assert sorted[i] in ts;
      var j :| 0 <= j < |ts| && ts[j] == sorted[i];
      CanonicalIdempotent(items[j]);
      StringifyIs(items[j]);
    }
    ItemTexts(items');
    TextsAre(sorted, Texts(CanonicalItems(items')));
    SortTreesSorts(ts);
    SortTreesSorts(CanonicalItems(items'));
    SortedUnique(Texts(SortTrees(CanonicalItems(items'))), Texts(sorted));
    SameTextsPrint(SortTrees(CanonicalItems(items')), sorted);
  }

  lemma TextsAre(ts: seq<Tree>, texts: seq<string>)
    requires |texts| == |ts| && forall i | 0 <= i < |ts| :: texts[i] == Print(ts[i])
    ensures texts == Texts(ts)
  {}

  lemma ObjectReread(v: Value)
    requires v.Obj?
    ensures Reread(v).Obj? && KeptKeys(Reread(v).fields) == KeptKeys(v.fields)
    ensures forall k | k in KeptKeys(v.fields) :: Reread(v).fields[k] == Reread(v.fields[k])
  {
    hide CanonicalMembers, FieldsOf, SortedKeys, CleanMembers;
    var keys := SortedKeys(KeptKeys(v.fields));
    SortedKeysInOrder(KeptKeys(v.fields));
    MembersAre(v, keys);
    var ms := CleanMembers(CanonicalMembers(v, keys));
    assert Reread(v) == Obj(FieldsOf(ms));
    FieldKeys(ms, keys);
    forall k | k in KeptKeys(v.fields) ensures Reread(v).fields[k] == Reread(v.fields[k]) {
      var i :| 0 <= i < |keys| && keys[i] == k;
      FieldsOfAt(ms, i);
    }
  }

  lemma {:induction false} ObjectIdempotent(v: Value)
    requires v.Obj?
    ensures CanonicalStringify(Reread(v)) == CanonicalStringify(v)
    decreases v, 0
  {
    hide CanonicalStringify, Equivalent, Reread;
    ObjectReread(v);
    forall k | k in KeptKeys(v.fields) ensures Equivalent(Reread(v).fields[k], v.fields[k]) {
      CanonicalIdempotent(v.fields[k]);
      CanonicalIff(Reread(v).fields[k], v.fields[k]);
    }
    ObjectsPrintAlike(Reread(v), v);
  }

  lemma FieldKeys(ms: seq<Member>, keys: seq<string>)
    requires |ms| == |keys| && forall i | 0 <= i < |keys| :: ms[i].key == keys[i]
    ensures forall k :: k in FieldsOf(ms) <==> k in keys
  {}
}
