/** Canonical JSON: arrays sorted by their items' text, object keys in UTF-16 order,
    volatile keys dropped, -0 written as 0. */
module Canonical {
  import opened Utf16
  import opened JsNumber
  import opened JsonTree

  /** A decoded JSON value; objects are unordered, as in Go's `map[string]any`. */
  datatype Value =
    | Null
    | Bool(b: bool)
    | Str(s: string)
    | Num(n: Number)
    | Arr(items: seq<Value>)
    | Obj(fields: map<string, Value>)

  const VOLATILE_KEYS: set<string> := {"sourcePointer", "evidence"}

  // ---- The order of strings ----

  predicate LessEq(a: string, b: string) { !JsLess(b, a) }

  predicate Sorted(ss: seq<string>) { forall i, j | 0 <= i < j < |ss| :: LessEq(ss[i], ss[j]) }

  lemma LessEqTotal(a: string, b: string, c: string)
    ensures LessEq(a, a)
    ensures LessEq(a, b) || LessEq(b, a)
    ensures LessEq(a, b) && LessEq(b, a) ==> a == b
    ensures LessEq(a, b) && LessEq(b, c) ==> LessEq(a, c)
  {
    hide JsLess;
    JsLessStrictTotal(a, b, c);
    JsLessStrictTotal(b, a, c);
    JsLessStrictTotal(c, b, a);
    JsLessStrictTotal(c, a, b);
    JsLessStrictTotal(b, c, a);
  }

  // ---- Canonical form ----

  /** Stable insertion of a tree among trees sorted by text. */
  function InsertTree(t: Tree, sorted: seq<Tree>): seq<Tree> {
    if sorted == [] then [t]
    else if JsLess(Print(sorted[0]), Print(t)) then [sorted[0]] + InsertTree(t, sorted[1..])
    else [t] + sorted
  }

  /** The stable sort by printed text that `canonicalValue` applies to arrays. */
  function SortTrees(ts: seq<Tree>): seq<Tree> {
    if ts == [] then [] else InsertTree(ts[0], SortTrees(ts[1..]))
  }

  ghost predicate IsFirst(k: string, ks: set<string>) {
    k in ks && forall k' | k' in ks :: LessEq(k, k')
  }

  lemma {:induction false} FirstExists(ks: set<string>) returns (k: string)
    requires ks != {}
    ensures IsFirst(k, ks)
  {
    hide LessEq;
    k :| k in ks;
    LessEqTotal(k, k, k);
    if ks != {k} {
      var k0 := FirstExists(ks - {k});
      LessEqTotal(k, k0, k);
      forall k' | k' in ks ensures LessEq(k0, k') || LessEq(k, k0) {}
      if LessEq(k0, k) {
        k := k0;
      } else {
        forall k' | k' in ks ensures LessEq(k, k') { LessEqTotal(k, k0, k'); }
      }
    }
  }

  ghost function First(ks: set<string>): (k: string)
    requires ks != {}
    ensures IsFirst(k, ks)
  {
    assert exists k :: IsFirst(k, ks) by { var k := FirstExists(ks); }
    var k :| IsFirst(k, ks);
    k
  }

  /** A set of keys in canonical order. */
  ghost function SortedKeys(ks: set<string>): (r: seq<string>)
    ensures forall k :: k in r <==> k in ks
  {
    if ks == {} then [] else [First(ks)] + SortedKeys(ks - {First(ks)})
  }

  lemma {:induction false} SortedKeysInOrder(ks: set<string>)
    ensures Sorted(SortedKeys(ks)) && forall i, j | 0 <= i < j < |SortedKeys(ks)| :: SortedKeys(ks)[i] != SortedKeys(ks)[j]
  {
    hide LessEq;
    if ks != {} {
      var k, rest := First(ks), SortedKeys(ks - {First(ks)});
      SortedKeysInOrder(ks - {k});
      assert SortedKeys(ks) == [k] + rest;
      forall i, j | 0 <= i < j < |[k] + rest| ensures LessEq(([k] + rest)[i], ([k] + rest)[j]) && ([k] + rest)[i] != ([k] + rest)[j] {
        assert ([k] + rest)[j] == rest[j - 1] && rest[j - 1] in rest;
        if i > 0 { assert ([k] + rest)[i] == rest[i - 1]; }
      }
    }
  }

  function KeptKeys(fields: map<string, Value>): set<string> { fields.Keys - VOLATILE_KEYS }

  /** `canonicalValue`. */
  ghost function CanonicalValue(v: Value): Tree
    decreases v, 1
  {
    match v
    case Null => TNull
    case Bool(b) => TBool(b)
    case Str(s) => TStr(s)
    case Num(n) => TNum(if n.Zero? then Zero(false) else n)
    case Arr(items) => TArr(SortTrees(CanonicalItems(items)))
    case Obj(fields) =>
      TObj(CanonicalMembers(v, SortedKeys(KeptKeys(fields))))
  }

  ghost function CanonicalItems(items: seq<Value>): seq<Tree>
    decreases items
  {
    if items == [] then [] else [CanonicalValue(items[0])] + CanonicalItems(items[1..])
  }

  ghost function CanonicalMembers(v: Value, keys: seq<string>): seq<Member>
    requires v.Obj?
    requires forall k | k in keys :: k in v.fields
    decreases v, 0, keys
  {
    if keys == [] then []
    else [Member(keys[0], CanonicalValue(v.fields[keys[0]]))] + CanonicalMembers(v, keys[1..])
  }

  ghost function CanonicalStringify(v: Value): string { Print(CanonicalValue(v)) }

  // ---- Equality up to what canonical text forgets ----

  predicate PrintsNull(v: Value) { v.Null? || (v.Num? && v.n.NonFinite?) }

  /** Equal up to the order of array items at every level, the volatile keys, and the
      sign of zero; non-finite numbers count as null. */
  ghost predicate Equivalent(a: Value, b: Value)
    decreases a
  {
    || (PrintsNull(a) && PrintsNull(b))
    || (a.Bool? && a == b)
    || (a.Str? && a == b)
    || (a.Num? && b.Num? && (a == b || (a.n.Zero? && b.n.Zero?)))
    || (a.Arr? && b.Arr? && SameItems(a.items, b.items))
    || (a.Obj? && b.Obj? && KeptKeys(a.fields) == KeptKeys(b.fields) &&
        forall k | k in KeptKeys(a.fields) :: Equivalent(a.fields[k], b.fields[k]))
  }

  /** The items can be matched one to one, in any order. */
  ghost predicate SameItems(xs: seq<Value>, ys: seq<Value>)
    decreases xs
  {
    |xs| == |ys| &&
    (xs != [] ==> exists j | 0 <= j < |ys| :: Equivalent(xs[0], ys[j]) && SameItems(xs[1..], Without(ys, j)))
  }

  function Without<T>(ys: seq<T>, j: nat): seq<T>
    requires j < |ys|
  {
    ys[..j] + ys[j + 1..]
  }
}
