/** Exactly when the flattened node accepts what all the members accept, and only that. */
module FlattenMeaning {
  import opened Flatten
  import opened Text
  import Canonical

  /** A flattened member that is still a reference leads nowhere and is walked past. */
  predicate Meets(c: Context, f: Node, v: Json, p: string, fuel: nat)
    requires fuel > 0
  {
    f.ref.Some? || Plain(c, f, v, p, fuel)
  }

  ghost predicate MeetsAll(c: Context, fs: seq<Node>, v: Json, p: string, fuel: nat)
    requires fuel > 0
  {
    forall i | 0 <= i < |fs| :: Meets(c, fs[i], v, p, fuel)
  }

  /** A reference says nothing else. */
  predicate Bare(f: Node) { f.ref.Some? ==> !Known(f.typ) && f.enums.None? && f.items.None? && f.props == [] }

  predicate AllBare(fs: seq<Node>) { forall i | 0 <= i < |fs| :: Bare(fs[i]) }

  // ---- The conditions, on the members alone ----

  predicate AcceptsNull(f: Node) { f.ref.Some? || f.nullable || f.typ == "" }

  predicate MergedNull(fs: seq<Node>) { TypeOf(fs) == "" || (fs != [] && AllNullable(fs)) }

  predicate TakesWords(typ: string) { ScalarClass(typ) == "" || ScalarClass(typ) == "string" }

  /** The merged node rejects null only if some member does. */
  predicate NullForward(fs: seq<Node>) { !MergedNull(fs) ==> exists i | 0 <= i < |fs| :: !AcceptsNull(fs[i]) }

  /** In every list of strings the members check. */
  predicate InChecked(fs: seq<Node>, x: EnumValue) {
    forall i | 0 <= i < |fs| :: Checked(fs[i].enums) ==> x in fs[i].enums.value
  }

  /** The merged list, if it is checked, has every string that all the members' checked lists
      have; mixed lists, which are not checked on their own, take none of them away. */
  predicate EnumForward(fs: seq<Node>) {
    TakesWords(TypeOf(fs)) && Checked(EnumOf(fs)) ==>
      exists i | 0 <= i < |fs| :: Checked(fs[i].enums) && Covers(EnumOf(fs).value, fs[i].enums.value, fs)
  }

  /** What of `list` is in every checked list is in `merged`. */
  predicate Covers(merged: seq<EnumValue>, list: seq<EnumValue>, fs: seq<Node>) {
    forall x | x in list :: InChecked(fs, x) ==> x in merged
  }

  predicate NullBack(fs: seq<Node>) { MergedNull(fs) ==> forall i | 0 <= i < |fs| :: AcceptsNull(fs[i]) }

  /** The merged list is checked if any of the members' lists is. */
  predicate EnumBack(fs: seq<Node>) {
    TakesWords(TypeOf(fs)) ==> Checked(EnumOf(fs)) || forall i | 0 <= i < |fs| :: !Checked(fs[i].enums)
  }

  // ---- Forward: what all members accept, the merged node accepts ----

  lemma NullMeets(c: Context, fs: seq<Node>, p: string, fuel: nat)
    requires fuel > 0
    ensures MeetsAll(c, fs, Canonical.Null, p, fuel) <==> c.redacted(p) || forall i | 0 <= i < |fs| :: AcceptsNull(fs[i])
    ensures Plain(c, Merged(fs), Canonical.Null, p, fuel) <==> c.redacted(p) || MergedNull(fs)
  {}

  lemma MismatchMeets(c: Context, fs: seq<Node>, v: Json, p: string, fuel: nat)
    requires fuel > 0 && !Conflict(fs) && AllBare(fs) && Mismatch(TypeOf(fs), v)
    ensures MeetsAll(c, fs, v, p, fuel) ==> c.redacted(p)
    ensures Plain(c, Merged(fs), v, p, fuel) <==> c.redacted(p)
  {
    TypeOfIs(fs);
    hide TypeOf, EnumOf, ItemsOf, PropsOf, Conflict;
    if MeetsAll(c, fs, v, p, fuel) {
      var i :| 0 <= i < |fs| && fs[i].typ == TypeOf(fs);
      assert Meets(c, fs[i], v, p, fuel) && Bare(fs[i]);
    }
  }

  lemma NoMismatch(fs: seq<Node>, v: Json)
    requires !Conflict(fs) && !Mismatch(TypeOf(fs), v)
    ensures forall i | 0 <= i < |fs| :: !Mismatch(fs[i].typ, v)
  {
    TypeOfIs(fs);
    hide TypeOf, Conflict;
    forall i | 0 <= i < |fs| ensures !Mismatch(fs[i].typ, v) {
      if !Known(fs[i].typ) { assert ScalarClass(fs[i].typ) == ""; }
    }
  }

  /** Past the type check a node looks at its enum and inside. */
  lemma PlainIs(c: Context, f: Node, v: Json, p: string, fuel: nat)
    requires fuel > 0 && !v.Null? && !Mismatch(f.typ, v)
    ensures Plain(c, f, v, p, fuel) <==>
            (v.Str? ==> c.volatile(p) || c.redacted(p) || Passes(f.enums, v.s)) && Inside(c, f, v, p, fuel)
  {}

  lemma StrMeets(c: Context, fs: seq<Node>, s: string, p: string, fuel: nat)
    requires fuel > 0 && !Conflict(fs) && AllBare(fs) && !Mismatch(TypeOf(fs), Canonical.Str(s))
    ensures MeetsAll(c, fs, Canonical.Str(s), p, fuel) <==>
            c.volatile(p) || c.redacted(p) || forall i | 0 <= i < |fs| :: Passes(fs[i].enums, s)
    ensures Plain(c, Merged(fs), Canonical.Str(s), p, fuel) <==> c.volatile(p) || c.redacted(p) || Passes(EnumOf(fs), s)
  {
    var v := Canonical.Str(s);
    NoMismatch(fs, v);
    hide TypeOf, EnumOf, ItemsOf, PropsOf, Conflict, Mismatch, Passes;
    forall i | 0 <= i < |fs|
      ensures Meets(c, fs[i], v, p, fuel) <==> c.volatile(p) || c.redacted(p) || Passes(fs[i].enums, s)
    {
      PlainIs(c, fs[i], v, p, fuel);
      assert Bare(fs[i]);
      if fs[i].ref.Some? { NoEnumPasses(s); }
    }
    PlainIs(c, Merged(fs), v, p, fuel);
  }

  lemma NoEnumPasses(s: string)
    ensures Passes(None, s)
  {}

  lemma ObjMeets(c: Context, fs: seq<Node>, v: Json, p: string, fuel: nat)
    requires fuel > 0 && !Conflict(fs) && AllBare(fs) && v.Obj? && !Mismatch(TypeOf(fs), v)
    ensures MeetsAll(c, fs, v, p, fuel) <==> AllFit(c, AllProps(fs), v.fields, p, fuel)
    ensures Plain(c, Merged(fs), v, p, fuel) <==> AllFit(c, PropsOf(fs), v.fields, p, fuel)
  {
    NoMismatch(fs, v);
    AllPropsFit(c, fs, v.fields, p, fuel);
    hide TypeOf, EnumOf, ItemsOf, PropsOf, AllProps, Conflict, Mismatch, PropFits;
    forall i | 0 <= i < |fs| ensures Meets(c, fs[i], v, p, fuel) <==> AllFit(c, fs[i].props, v.fields, p, fuel) {
      PlainIs(c, fs[i], v, p, fuel);
      assert Bare(fs[i]);
    }
    hide AllFit;
    PlainIs(c, Merged(fs), v, p, fuel);
    InsideObj(c, Merged(fs), v, p, fuel);
  }

  lemma InsideObj(c: Context, f: Node, v: Json, p: string, fuel: nat)
    requires fuel > 0 && v.Obj?
    ensures Inside(c, f, v, p, fuel) <==> AllFit(c, f.props, v.fields, p, fuel)
  {}

  lemma OtherMeets(c: Context, fs: seq<Node>, v: Json, p: string, fuel: nat)
    requires fuel > 0 && !Conflict(fs) && AllBare(fs) && (v.Arr? || v.Num? || v.Bool?) && !Mismatch(TypeOf(fs), v)
    ensures MeetsAll(c, fs, v, p, fuel) <==> Plain(c, Merged(fs), v, p, fuel) && RestFits(c, fs, v, p, fuel)
  {
    NoMismatch(fs, v);
    FirstItems(fs);
    hide TypeOf, EnumOf, ItemsOf, PropsOf, Conflict, Mismatch, Accepts;
    PlainIs(c, Merged(fs), v, p, fuel);
    forall i | 0 <= i < |fs| ensures Meets(c, fs[i], v, p, fuel) <==> Inside(c, fs[i], v, p, fuel) {
      PlainIs(c, fs[i], v, p, fuel);
      assert Bare(fs[i]);
    }
    if v.Arr? {
      hide Meets, Plain;
      forall f: Node ensures Inside(c, f, v, p, fuel) <==> (f.items.Some? ==> EachAccepted(c, f.items.value, v.items, p, fuel)) {}
    }
  }

  // ---- What merging forgets ----

  /** The schema alone, whether required or not. */
  predicate SchemaFits(c: Context, q: Property, fields: map<string, Json>, p: string, fuel: nat)
    requires fuel > 0
  {
    q.name in fields ==> Accepts(c, q.schema, fields[q.name], p + "/" + q.name, fuel - 1)
  }

  predicate EachAccepted(c: Context, n: Node, vs: seq<Json>, p: string, fuel: nat)
    requires fuel > 0
  {
    forall i | 0 <= i < |vs| :: Accepts(c, n, vs[i], p + "/*", fuel - 1)
  }

  /** The schemas that merging drops accept what they are for: those of properties declared
      again later, and items declared before. */
  ghost predicate RestFits(c: Context, fs: seq<Node>, v: Json, p: string, fuel: nat)
    requires fuel > 0
  {
    match v
    case Obj(fields) => OverriddenFit(c, AllProps(fs), fields, p, fuel)
    case Arr(items) =>
      forall i, j | 0 <= i < j < |fs| && fs[i].items.Some? && fs[j].items.Some? ::
        EachAccepted(c, fs[j].items.value, items, p, fuel)
    case _ => true
  }

  ghost predicate OverriddenFit(c: Context, ps: seq<Property>, fields: map<string, Json>, p: string, fuel: nat)
    requires fuel > 0
  {
    forall i, j | 0 <= i < j < |ps| && ps[i].name == ps[j].name :: SchemaFits(c, ps[i], fields, p, fuel)
  }

  /** Without repeats nothing is forgotten. */
  lemma NothingForgotten(c: Context, fs: seq<Node>, v: Json, p: string, fuel: nat)
    requires fuel > 0 && NoRepeats(fs)
    ensures RestFits(c, fs, v, p, fuel)
  {}

  ghost predicate Kept(ps: seq<Property>, q: Property, exact: bool) {
    exists k | 0 <= k < |ps| :: ps[k].name == q.name && (q.required ==> ps[k].required) && (exact ==> ps[k].schema == q.schema)
  }

  lemma KeptOn(ps: seq<Property>, x: Property, q: Property, exact: bool)
    requires Kept(ps, q, exact) && (exact ==> x.name != q.name)
    ensures Kept(AddProp(ps, x), q, exact)
  {
    AddPropAt(ps, x);
    var i := IndexOf(ps, x.name);
    var k :| 0 <= k < |ps| && ps[k].name == q.name && (q.required ==> ps[k].required) && (exact ==> ps[k].schema == q.schema);
    var more := AddProp(ps, x);
    assert more[k].name == q.name && (q.required ==> more[k].required) && (exact ==> more[k].schema == q.schema);
  }

  lemma NewKept(ps: seq<Property>, x: Property)
    ensures Kept(AddProp(ps, x), x, true)
  {
    AddPropAt(ps, x);
    var i, more := IndexOf(ps, x.name), AddProp(ps, x);
    assert more[i].name == x.name && (x.required ==> more[i].required) && more[i].schema == x.schema;
  }

  ghost predicate LastOfName(ps: seq<Property>, i: nat)
    requires i < |ps|
  {
    forall j | i < j < |ps| :: ps[j].name != ps[i].name
  }

  /** Each property stays by name and as required; its schema stays if it is the last. */
  lemma {:induction false} AllKept(ps: seq<Property>, i: nat)
    requires i < |ps|
    ensures Kept(AddProps([], ps), ps[i], LastOfName(ps, i))
  {
    var before := AddProps([], Front(ps));
    if i == |ps| - 1 {
      NewKept(before, Last(ps));
    } else {
      AllKept(Front(ps), i);
      assert LastOfName(ps, i) ==> LastOfName(Front(ps), i) && Last(ps).name != ps[i].name;
      assert Kept(before, ps[i], LastOfName(ps, i));
      KeptOn(before, Last(ps), ps[i], LastOfName(ps, i));
    }
  }

  lemma PropsFitBack(c: Context, ps: seq<Property>, fields: map<string, Json>, p: string, fuel: nat)
    requires fuel > 0 && AllFit(c, AddProps([], ps), fields, p, fuel) && OverriddenFit(c, ps, fields, p, fuel)
    ensures AllFit(c, ps, fields, p, fuel)
  {
    hide Accepts;
    forall i | 0 <= i < |ps| ensures PropFits(c, ps[i], fields, p, fuel) {
      AllKept(ps, i);
      var merged := AddProps([], ps);
      var k :| 0 <= k < |merged| && merged[k].name == ps[i].name && (ps[i].required ==> merged[k].required)
                && (LastOfName(ps, i) ==> merged[k].schema == ps[i].schema);
      assert PropFits(c, merged[k], fields, p, fuel);
      if !LastOfName(ps, i) { assert SchemaFits(c, ps[i], fields, p, fuel); }
    }
  }

  lemma OverriddenFits(c: Context, ps: seq<Property>, fields: map<string, Json>, p: string, fuel: nat)
    requires fuel > 0 && AllFit(c, ps, fields, p, fuel)
    ensures OverriddenFit(c, ps, fields, p, fuel)
  {
    hide Accepts;
    forall i | 0 <= i < |ps| ensures SchemaFits(c, ps[i], fields, p, fuel) {
      assert PropFits(c, ps[i], fields, p, fuel);
    }
  }

  ghost predicate AtMostOneItems(fs: seq<Node>) {
    forall i, j | 0 <= i < j < |fs| :: fs[i].items.None? || fs[j].items.None?
  }

  /** No property is declared twice and items at most once. */
  ghost predicate NoRepeats(fs: seq<Node>) { DistinctNames(AllProps(fs)) && AtMostOneItems(fs) }

  /** What every member accepts, the merged node accepts. */
  lemma MergeForward(c: Context, fs: seq<Node>, v: Json, p: string, fuel: nat)
    requires fuel > 0 && !Conflict(fs) && AllBare(fs) && NullForward(fs) && EnumForward(fs)
    requires MeetsAll(c, fs, v, p, fuel)
    ensures Plain(c, Merged(fs), v, p, fuel)
  {
    hide MeetsAll, Plain, Mismatch;
    if v.Null? {
      NullMeets(c, fs, p, fuel);
    } else if Mismatch(TypeOf(fs), v) {
      MismatchMeets(c, fs, v, p, fuel);
    } else {
      match v
      case Str(s) =>
        StrMeets(c, fs, s, p, fuel);
        if forall i | 0 <= i < |fs| :: Passes(fs[i].enums, s) { WordForward(fs, s); }
      case Obj(fields) =>
        ObjMeets(c, fs, v, p, fuel);
        if AllFit(c, AllProps(fs), fields, p, fuel) { AddPropsFit(c, [], AllProps(fs), fields, p, fuel); }
        PropsOfAll(fs);
      case _ => OtherMeets(c, fs, v, p, fuel);
    }
  }

  lemma WordForward(fs: seq<Node>, s: string)
    requires EnumForward(fs) && !Mismatch(TypeOf(fs), Canonical.Str(s)) && forall i | 0 <= i < |fs| :: Passes(fs[i].enums, s)
    ensures Passes(EnumOf(fs), s)
  {
    hide EnumOf, TypeOf, AllWords;
    if Checked(EnumOf(fs)) {
      WordsTaken(fs, s);
      var i :| 0 <= i < |fs| && Checked(fs[i].enums) && Covers(EnumOf(fs).value, fs[i].enums.value, fs);
      assert Passes(fs[i].enums, s);
      assert InChecked(fs, Word(s));
    }
  }

  lemma WordsTaken(fs: seq<Node>, s: string)
    ensures TakesWords(TypeOf(fs)) <==> !Mismatch(TypeOf(fs), Canonical.Str(s))
  {}

  // ---- The conditions are exact ----

  function Longest(es: seq<EnumValue>): nat {
    if es == [] then 0
    else
      var n := if Last(es).Word? then |Last(es).s| else 0;
      if n > Longest(Front(es)) then n else Longest(Front(es))
  }

  lemma {:induction false} LongestIs(es: seq<EnumValue>, s: string)
    requires Word(s) in es
    ensures |s| <= Longest(es)
  {
    if Word(s) != Last(es) { LongestIs(Front(es), s); }
  }

  /** There is always a string that is not listed. */
  lemma NewWord(es: seq<EnumValue>) returns (s: string)
    ensures Word(s) !in es
  {
    s := seq(Longest(es) + 1, _ => 'x');
    if Word(s) in es {
      LongestIs(es, s);
      assert false;
    }
  }

  /** A string all checked lists have and the merged one lacks. */
  lemma WordTakenAway(fs: seq<Node>) returns (s: string)
    requires !EnumForward(fs)
    ensures TakesWords(TypeOf(fs)) && !Passes(EnumOf(fs), s) && forall i | 0 <= i < |fs| :: Passes(fs[i].enums, s)
  {
    hide EnumOf, TypeOf;
    if i :| 0 <= i < |fs| && Checked(fs[i].enums) {
      assert !Covers(EnumOf(fs).value, fs[i].enums.value, fs);
      var x :| x in fs[i].enums.value && InChecked(fs, x) && x !in EnumOf(fs).value;
      assert x.Word?;
      s := x.s;
    } else {
      s := NewWord(EnumOf(fs).value);
    }
  }

  /** Where a condition fails, some value that every member accepts is rejected. */
  lemma ForwardExact(c: Context, fs: seq<Node>, p: string) returns (v: Json)
    requires !Conflict(fs) && AllBare(fs) && !c.redacted(p) && !c.volatile(p)
    requires !NullForward(fs) || !EnumForward(fs)
    ensures forall fuel: nat | fuel > 0 :: MeetsAll(c, fs, v, p, fuel) && !Plain(c, Merged(fs), v, p, fuel)
  {
    hide MeetsAll, Plain, EnumForward;
    if !NullForward(fs) {
      v := Canonical.Null;
      forall fuel: nat | fuel > 0 ensures MeetsAll(c, fs, v, p, fuel) && !Plain(c, Merged(fs), v, p, fuel) {
        NullMeets(c, fs, p, fuel);
      }
    } else {
      var s := WordTakenAway(fs);
      v := Canonical.Str(s);
      WordsTaken(fs, s);
      forall fuel: nat | fuel > 0 ensures MeetsAll(c, fs, v, p, fuel) && !Plain(c, Merged(fs), v, p, fuel) {
        StrMeets(c, fs, s, p, fuel);
      }
    }
  }

  // ---- Back: what the merged node accepts, all members accept ----

  lemma WordBack(fs: seq<Node>, s: string)
    requires EnumBack(fs) && TakesWords(TypeOf(fs)) && Passes(EnumOf(fs), s)
    ensures forall i | 0 <= i < |fs| :: Passes(fs[i].enums, s)
  {
    EnumOfIs(fs, Word(s));
  }

  /** The converse, with what merging forgets. A redacted place that does not hold the documented
      type is not looked into, so nothing is known there. */
  lemma MergeBack(c: Context, fs: seq<Node>, v: Json, p: string, fuel: nat)
    requires fuel > 0 && !Conflict(fs) && AllBare(fs) && NullBack(fs) && EnumBack(fs)
    requires Plain(c, Merged(fs), v, p, fuel) && (Mismatch(TypeOf(fs), v) ==> !c.redacted(p))
    ensures MeetsAll(c, fs, v, p, fuel) <==> RestFits(c, fs, v, p, fuel)
  {
    hide MeetsAll, Plain, Mismatch, EnumBack, OverriddenFit;
    if v.Null? {
      NullMeets(c, fs, p, fuel);
    } else if Mismatch(TypeOf(fs), v) {
      MismatchMeets(c, fs, v, p, fuel);
    } else {
      match v
      case Str(s) =>
        StrMeets(c, fs, s, p, fuel);
        WordsTaken(fs, s);
        if Passes(EnumOf(fs), s) { WordBack(fs, s); }
      case Obj(fields) =>
        ObjMeets(c, fs, v, p, fuel);
        PropsOfAll(fs);
        if AllFit(c, AllProps(fs), fields, p, fuel) { OverriddenFits(c, AllProps(fs), fields, p, fuel); }
        if OverriddenFit(c, AllProps(fs), fields, p, fuel) { PropsFitBack(c, AllProps(fs), fields, p, fuel); }
      case _ => OtherMeets(c, fs, v, p, fuel);
    }
  }

  /** Where a condition fails, some value some member rejects is accepted. */
  lemma BackExact(c: Context, fs: seq<Node>, p: string) returns (v: Json)
    requires !Conflict(fs) && AllBare(fs) && !c.redacted(p) && !c.volatile(p)
    requires !NullBack(fs) || !EnumBack(fs)
    ensures forall fuel: nat | fuel > 0 :: Plain(c, Merged(fs), v, p, fuel) && !MeetsAll(c, fs, v, p, fuel)
  {
    hide MeetsAll, Plain;
    if !NullBack(fs) {
      v := Canonical.Null;
      forall fuel: nat | fuel > 0 ensures Plain(c, Merged(fs), v, p, fuel) && !MeetsAll(c, fs, v, p, fuel) {
        NullMeets(c, fs, p, fuel);
      }
    } else {
      var i :| 0 <= i < |fs| && Checked(fs[i].enums);
      var s := NewWord(fs[i].enums.value);
      v := Canonical.Str(s);
      WordsTaken(fs, s);
      assert !Passes(fs[i].enums, s);
      forall fuel: nat | fuel > 0 ensures Plain(c, Merged(fs), v, p, fuel) && !MeetsAll(c, fs, v, p, fuel) {
        StrMeets(c, fs, s, p, fuel);
      }
    }
  }

  // ---- The same for a node and its members as they stand ----

  /** Neither the hop limit nor the depth limit cuts the flattening short. */
  predicate Uncut(n: Node, t: Table, depth: nat)
    decreases MAX_FLATTEN_DEPTH + 1 - depth
  {
    depth <= MAX_FLATTEN_DEPTH
    && var m := Follow(n, t, MAX_FLATTEN_DEPTH);
       (m.ref.Some? ==> Missing(n, t, MAX_FLATTEN_DEPTH))
       && (m.ref.None? && IsAllOf(m) ==>
             forall i | 0 <= i < |m.composition.value.members| :: Uncut(m.composition.value.members[i], t, depth + 1))
  }

  lemma {:induction false} EachAt(ms: seq<Node>, t: Table, depth: nat, i: nat)
    requires i < |ms|
    ensures FlattenEach(ms, t, depth)[i] == FlattenAllOf(ms[i], t, depth)
  {
    if i < |ms| - 1 { EachAt(Front(ms), t, depth, i); }
  }

  /** Short of the limit the depth does not matter. */
  lemma {:induction false} DepthIrrelevant(n: Node, t: Table, d: nat, e: nat)
    requires Uncut(n, t, d) && e <= d
    ensures FlattenAllOf(n, t, e) == FlattenAllOf(n, t, d)
    decreases MAX_FLATTEN_DEPTH + 1 - d
  {
    var m := Follow(n, t, MAX_FLATTEN_DEPTH);
    if m.ref.None? && IsAllOf(m) {
      var ms := m.composition.value.members;
      var a, b := FlattenEach(ms, t, e + 1), FlattenEach(ms, t, d + 1);
      forall i | 0 <= i < |ms| ensures a[i] == b[i] {
        assert Uncut(ms[i], t, d + 1);
        DepthIrrelevant(ms[i], t, d + 1, e + 1);
        EachAt(ms, t, e + 1, i);
        EachAt(ms, t, d + 1, i);
      }
      assert a == b;
      hide Conflict, Merged;
    }
  }

  /** The levels a walk spends on references before it comes to the node they lead to. */
  function Levels(n: Node, t: Table, hops: nat): nat
    decreases hops
  {
    if hops > 0 && n.ref.Some? && n.ref.value in t then 1 + Levels(t[n.ref.value], t, hops - 1) else 0
  }

  function LevelsOf(n: Node, t: Table): nat { Levels(n, t, MAX_FLATTEN_DEPTH) }

  lemma {:induction false} FollowAccepts(c: Context, n: Node, v: Json, p: string, hops: nat, fuel: nat)
    ensures Accepts(c, n, v, p, fuel + Levels(n, c.named, hops)) <==> Accepts(c, Follow(n, c.named, hops), v, p, fuel)
    decreases hops
  {
    hide FlattenAllOf, Plain, AcceptsAny;
    if hops > 0 && n.ref.Some? && n.ref.value in c.named {
      FollowAccepts(c, c.named[n.ref.value], v, p, hops - 1, fuel);
    }
  }

  /** A dangling reference is walked past; a node without one is judged as flattened. */
  lemma NoHop(c: Context, m: Node, v: Json, p: string, f: Node, fuel: nat)
    requires m.ref.Some? ==> m.ref.value !in c.named
    requires f == if m.ref.Some? || !IsAllOf(m) then m else FlattenAllOf(m, c.named, 0)
    requires f.composition.None? && fuel > 0
    ensures Accepts(c, m, v, p, fuel) <==> Meets(c, f, v, p, fuel)
  {
    hide Plain;
    if m.ref.None? { NoRefAfter(m, c.named); }
  }

  lemma NoRefAfter(m: Node, t: Table)
    requires m.ref.None?
    ensures FlattenAllOf(m, t, 0).ref.None?
  {}

  /** A member with the levels its references take accepts what its flattened form meets. */
  lemma MemberMeets(c: Context, n: Node, v: Json, p: string, depth: nat, fuel: nat)
    requires Uncut(n, c.named, depth) && FlattenAllOf(n, c.named, depth).composition.None? && fuel > 0
    ensures Accepts(c, n, v, p, fuel + LevelsOf(n, c.named)) <==> Meets(c, FlattenAllOf(n, c.named, depth), v, p, fuel)
  {
    hide Accepts, Meets, Merged, Conflict, FlattenEach, FlattenAllOf, Follow, Missing, Levels;
    var m := Follow(n, c.named, MAX_FLATTEN_DEPTH);
    FollowAccepts(c, n, v, p, MAX_FLATTEN_DEPTH, fuel);
    DepthIrrelevant(n, c.named, depth, 0);
    FlattenFollowed(n, c.named);
    MissingDangles(n, c.named, MAX_FLATTEN_DEPTH);
    NoHop(c, m, v, p, FlattenAllOf(n, c.named, 0), fuel);
  }

  lemma {:induction false} MissingDangles(n: Node, t: Table, hops: nat)
    ensures var m := Follow(n, t, hops); Missing(n, t, hops) ==> m.ref.Some? && m.ref.value !in t
    decreases hops
  {
    if hops > 0 && n.ref.Some? && n.ref.value in t { MissingDangles(t[n.ref.value], t, hops - 1); }
  }

  lemma FlattenFollowed(n: Node, t: Table)
    ensures var m := Follow(n, t, MAX_FLATTEN_DEPTH);
            (Missing(n, t, MAX_FLATTEN_DEPTH) || !IsAllOf(m) ==> FlattenAllOf(n, t, 0) == m)
            && (m.ref.None? ==> FlattenAllOf(n, t, 0) == FlattenAllOf(m, t, 0))
  {
    MissingDangles(n, t, MAX_FLATTEN_DEPTH);
    hide Merged, Conflict;
  }

  /** The members of an allOf, flattened as the flattening of the node does. */
  function MembersOf(n: Node, t: Table): (fs: seq<Node>)
    requires IsAllOf(n)
    ensures |fs| == |n.composition.value.members|
  {
    FlattenEach(n.composition.value.members, t, 1)
  }

  /** Every member accepts, given the levels its own references take on top. */
  ghost predicate AllAccept(c: Context, ms: seq<Node>, v: Json, p: string, fuel: nat) {
    forall i | 0 <= i < |ms| :: Accepts(c, ms[i], v, p, fuel + LevelsOf(ms[i], c.named))
  }

  /** Every member accepts with just so many levels. */
  ghost predicate AllAcceptWithin(c: Context, ms: seq<Node>, v: Json, p: string, fuel: nat) {
    forall i | 0 <= i < |ms| :: Accepts(c, ms[i], v, p, fuel)
  }

  lemma MembersMeet(c: Context, n: Node, v: Json, p: string, fuel: nat)
    requires n.ref.None? && IsAllOf(n) && Uncut(n, c.named, 0) && !Conflict(MembersOf(n, c.named)) && fuel > 0
    ensures AllAccept(c, n.composition.value.members, v, p, fuel) <==> MeetsAll(c, MembersOf(n, c.named), v, p, fuel)
  {
    hide *;
    HasMembers(n);
    var ms, fs := n.composition.value.members, MembersOf(n, c.named);
    forall i | 0 <= i < |ms|
      ensures Accepts(c, ms[i], v, p, fuel + LevelsOf(ms[i], c.named)) <==> Meets(c, fs[i], v, p, fuel)
    {
      MemberMeetsAt(c, n, v, p, fuel, i);
    }
    Pointwise(c, ms, fs, v, p, fuel);
  }

  lemma HasMembers(n: Node)
    requires IsAllOf(n)
    ensures n.composition.Some?
  {}

  lemma Pointwise(c: Context, ms: seq<Node>, fs: seq<Node>, v: Json, p: string, fuel: nat)
    requires fuel > 0 && |ms| == |fs|
    requires forall i | 0 <= i < |ms| :: Accepts(c, ms[i], v, p, fuel + LevelsOf(ms[i], c.named)) <==> Meets(c, fs[i], v, p, fuel)
    ensures AllAccept(c, ms, v, p, fuel) <==> MeetsAll(c, fs, v, p, fuel)
  {
    hide Accepts, Meets, LevelsOf;
  }

  lemma MemberAt(n: Node, t: Table, i: nat)
    requires IsAllOf(n) && i < |n.composition.value.members|
    ensures MembersOf(n, t)[i] == FlattenAllOf(n.composition.value.members[i], t, 1)
  {
    hide FlattenAllOf, FlattenEach;
    EachAt(n.composition.value.members, t, 1, i);
  }

  lemma MemberMeetsAt(c: Context, n: Node, v: Json, p: string, fuel: nat, i: nat)
    requires n.ref.None? && IsAllOf(n) && Uncut(n, c.named, 0) && !Conflict(MembersOf(n, c.named)) && fuel > 0
    requires i < |n.composition.value.members|
    ensures var m, f := n.composition.value.members[i], MembersOf(n, c.named)[i];
            Accepts(c, m, v, p, fuel + LevelsOf(m, c.named)) <==> Meets(c, f, v, p, fuel)
  {
    hide *;
    HasMembers(n);
    var m, fs := n.composition.value.members[i], MembersOf(n, c.named);
    UncutMembers(n, c.named);
    TypeOfIs(fs);
    MemberAt(n, c.named, i);
    MemberMeets(c, m, v, p, 1, fuel);
  }

  lemma UncutMembers(n: Node, t: Table)
    requires n.ref.None? && IsAllOf(n) && Uncut(n, t, 0)
    ensures forall i | 0 <= i < |n.composition.value.members| :: Uncut(n.composition.value.members[i], t, 1)
  {
    assert Follow(n, t, MAX_FLATTEN_DEPTH) == n;
  }

  /** What a node with an allOf is judged by. */
  lemma NodeIs(c: Context, n: Node, v: Json, p: string, fuel: nat)
    requires n.ref.None? && IsAllOf(n) && fuel > 0
    ensures var fs := MembersOf(n, c.named);
            Accepts(c, n, v, p, fuel) <==>
              if Conflict(fs) then AcceptsAny(c, n.composition.value.members, v, p, fuel)
              else Plain(c, Merged(fs), v, p, fuel)
  {
    FlattenedIs(n, c.named);
    hide FlattenAllOf, Conflict, Plain, AcceptsAny;
  }

  lemma FlattenedIs(n: Node, t: Table)
    requires n.ref.None? && IsAllOf(n)
    ensures FlattenAllOf(n, t, 0) == if Conflict(MembersOf(n, t)) then n else Merged(MembersOf(n, t))
  {}

  lemma {:induction false} WithinMore(c: Context, n: Node, v: Json, p: string, fuel: nat, more: nat)
    requires Accepts(c, n, v, p, more) && fuel <= more
    ensures Accepts(c, n, v, p, fuel)
    decreases more
  {
    if fuel < more {
      FewerLevels(c, n, v, p, more);
      WithinMore(c, n, v, p, fuel, more - 1);
    }
  }

  /** Flattening adds no violation: what every member of an allOf accepts, through references
      and nested allOfs, the node accepts, when the members cannot be merged or the conditions
      on null and enums hold. The references take levels from the members only, so a member is
      given those on top. */
  lemma AllOfForward(c: Context, n: Node, v: Json, p: string, fuel: nat)
    requires n.ref.None? && IsAllOf(n) && Uncut(n, c.named, 0) && AllAccept(c, n.composition.value.members, v, p, fuel)
    requires var fs := MembersOf(n, c.named); Conflict(fs) || (AllBare(fs) && NullForward(fs) && EnumForward(fs))
    ensures Accepts(c, n, v, p, fuel)
  {
    hide *;
    if fuel == 0 {
      NoLevels(c, n, v, p);
    } else {
      HasMembers(n);
      NodeIs(c, n, v, p, fuel);
      if Conflict(MembersOf(n, c.named)) {
        AnyMember(c, n, v, p, fuel);
      } else {
        MembersMeet(c, n, v, p, fuel);
        MergeForward(c, MembersOf(n, c.named), v, p, fuel);
      }
    }
  }

  lemma NoLevels(c: Context, n: Node, v: Json, p: string)
    ensures Accepts(c, n, v, p, 0)
  {}

  /** Where members conflict there is one, and one is enough. */
  lemma AnyMember(c: Context, n: Node, v: Json, p: string, fuel: nat)
    requires IsAllOf(n) && fuel > 0 && Conflict(MembersOf(n, c.named)) && AllAccept(c, n.composition.value.members, v, p, fuel)
    ensures AcceptsAny(c, n.composition.value.members, v, p, fuel)
  {
    var ms, fs := n.composition.value.members, MembersOf(n, c.named);
    assert fs != [];
    hide Accepts, FlattenEach, Conflict, LevelsOf;
    WithinMore(c, ms[0], v, p, fuel - 1, fuel + LevelsOf(ms[0], c.named));
  }

  /** The conditions are needed: where the members merge and one of them fails, there is a
      value every member accepts and the node rejects, with any number of levels. */
  lemma AllOfForwardExact(c: Context, n: Node, p: string) returns (v: Json)
    requires n.ref.None? && IsAllOf(n) && Uncut(n, c.named, 0) && !c.redacted(p) && !c.volatile(p)
    requires var fs := MembersOf(n, c.named); !Conflict(fs) && AllBare(fs) && !(NullForward(fs) && EnumForward(fs))
    ensures forall fuel: nat | fuel > 0 ::
              AllAccept(c, n.composition.value.members, v, p, fuel) && !Accepts(c, n, v, p, fuel)
  {
    var fs := MembersOf(n, c.named);
    hide NullForward, EnumForward, Plain, Merged, Uncut, AllBare, Conflict, MeetsAll, FlattenAllOf, AllAccept;
    v := ForwardExact(c, fs, p);
    forall fuel: nat | fuel > 0
      ensures AllAccept(c, n.composition.value.members, v, p, fuel) && !Accepts(c, n, v, p, fuel)
    {
      MembersMeet(c, n, v, p, fuel);
      NodeIs(c, n, v, p, fuel);
    }
  }

  /** The converse, under the converse conditions: of what the node accepts, every member accepts
      exactly that which the schemas forgotten in merging accept. */
  lemma AllOfBack(c: Context, n: Node, v: Json, p: string, fuel: nat)
    requires n.ref.None? && IsAllOf(n) && Uncut(n, c.named, 0) && Accepts(c, n, v, p, fuel) && fuel > 0
    requires var fs := MembersOf(n, c.named);
             !Conflict(fs) && AllBare(fs) && NullBack(fs) && EnumBack(fs) && (Mismatch(TypeOf(fs), v) ==> !c.redacted(p))
    ensures AllAccept(c, n.composition.value.members, v, p, fuel) <==> RestFits(c, MembersOf(n, c.named), v, p, fuel)
  {
    hide NullBack, EnumBack, Plain, Merged, Uncut, AllBare, Conflict, MeetsAll, RestFits, Mismatch, FlattenAllOf, AllAccept;
    NodeIs(c, n, v, p, fuel);
    MergeBack(c, MembersOf(n, c.named), v, p, fuel);
    MembersMeet(c, n, v, p, fuel);
  }

  /** Under both pairs of conditions the members accept, with the levels of their references on
      top, exactly what the node and the forgotten schemas accept. */
  lemma AllOfExactly(c: Context, n: Node, v: Json, p: string, fuel: nat)
    requires n.ref.None? && IsAllOf(n) && Uncut(n, c.named, 0) && fuel > 0
    requires var fs := MembersOf(n, c.named);
             !Conflict(fs) && AllBare(fs) && NullForward(fs) && EnumForward(fs) && NullBack(fs) && EnumBack(fs)
             && (Mismatch(TypeOf(fs), v) ==> !c.redacted(p))
    ensures AllAccept(c, n.composition.value.members, v, p, fuel)
            <==> Accepts(c, n, v, p, fuel) && RestFits(c, MembersOf(n, c.named), v, p, fuel)
  {
    hide *;
    HasMembers(n);
    if AllAccept(c, n.composition.value.members, v, p, fuel) { AllOfForward(c, n, v, p, fuel); }
    if Accepts(c, n, v, p, fuel) { AllOfBack(c, n, v, p, fuel); }
  }

  /** So with no property or items declared twice the node accepts only what every member
      accepts with the same number of levels. */
  lemma AllOfBackWithin(c: Context, n: Node, v: Json, p: string, fuel: nat)
    requires n.ref.None? && IsAllOf(n) && Uncut(n, c.named, 0) && Accepts(c, n, v, p, fuel)
    requires var fs := MembersOf(n, c.named);
             !Conflict(fs) && AllBare(fs) && NoRepeats(fs) && NullBack(fs) && EnumBack(fs)
             && (Mismatch(TypeOf(fs), v) ==> !c.redacted(p))
    ensures AllAcceptWithin(c, n.composition.value.members, v, p, fuel)
  {
    hide NullBack, EnumBack, Plain, Uncut, AllBare, Conflict, RestFits, Mismatch, FlattenAllOf, LevelsOf, NoRepeats;
    if fuel > 0 {
      AllOfBack(c, n, v, p, fuel);
      NothingForgotten(c, MembersOf(n, c.named), v, p, fuel);
      var ms := n.composition.value.members;
      hide Accepts;
      forall i | 0 <= i < |ms| ensures Accepts(c, ms[i], v, p, fuel) {
        WithinMore(c, ms[i], v, p, fuel, fuel + LevelsOf(ms[i], c.named));
      }
    }
  }

  lemma AllOfBackExact(c: Context, n: Node, p: string) returns (v: Json)
    requires n.ref.None? && IsAllOf(n) && Uncut(n, c.named, 0) && !c.redacted(p) && !c.volatile(p)
    requires var fs := MembersOf(n, c.named); !Conflict(fs) && AllBare(fs) && !(NullBack(fs) && EnumBack(fs))
    ensures forall fuel: nat | fuel > 0 ::
              Accepts(c, n, v, p, fuel) && !AllAccept(c, n.composition.value.members, v, p, fuel)
  {
    var fs := MembersOf(n, c.named);
    hide NullBack, EnumBack, Plain, Merged, Uncut, AllBare, Conflict, MeetsAll, FlattenAllOf, AllAccept;
    v := BackExact(c, fs, p);
    forall fuel: nat | fuel > 0
      ensures Accepts(c, n, v, p, fuel) && !AllAccept(c, n.composition.value.members, v, p, fuel)
    {
      NodeIs(c, n, v, p, fuel);
      MembersMeet(c, n, v, p, fuel);
    }
  }

  // ---- The same number of levels for the node and its members ----

  /** Every walk from the node is over within so many levels, whatever the value. */
  predicate EndsWithin(c: Context, n: Node, fuel: nat)
    decreases fuel, 1
  {
    fuel > 0
    && if n.ref.Some? then n.ref.value in c.named ==> EndsWithin(c, c.named[n.ref.value], fuel - 1)
       else EndsInside(c, if n.composition.Some? then FlattenAllOf(n, c.named, 0) else n, fuel)
  }

  predicate EndsInside(c: Context, f: Node, fuel: nat)
    requires fuel > 0
    decreases fuel, 0
  {
    if f.composition.Some? then
      forall m | m in f.composition.value.members :: EndsWithin(c, m, fuel - 1)
    else
      (forall q | q in f.props :: EndsWithin(c, q.schema, fuel - 1))
      && (f.items.Some? ==> EndsWithin(c, f.items.value, fuel - 1))
  }

  /** Past the end of every walk one more level finds nothing. */
  lemma {:induction false} OneMoreLevel(c: Context, n: Node, v: Json, p: string, fuel: nat)
    requires EndsWithin(c, n, fuel) && Accepts(c, n, v, p, fuel)
    ensures Accepts(c, n, v, p, fuel + 1)
    decreases fuel, 1
  {
    hide FlattenAllOf, Plain, EndsInside;
    if n.ref.Some? {
      if n.ref.value in c.named { OneMoreLevel(c, c.named[n.ref.value], v, p, fuel - 1); }
    } else {
      var f := if n.composition.Some? then FlattenAllOf(n, c.named, 0) else n;
      if f.composition.Some? {
        var ms := f.composition.value.members;
        var i :| 0 <= i < |ms| && Accepts(c, ms[i], v, p, fuel - 1);
        assert EndsWithin(c, ms[i], fuel - 1) by { InMembers(c, f, ms[i], fuel); }
        OneMoreLevel(c, ms[i], v, p, fuel - 1);
        assert AcceptsAny(c, ms, v, p, fuel + 1);
      } else {
        PlainOneMore(c, f, v, p, fuel);
      }
    }
  }

  lemma InMembers(c: Context, f: Node, m: Node, fuel: nat)
    requires fuel > 0 && EndsInside(c, f, fuel) && f.composition.Some? && m in f.composition.value.members
    ensures EndsWithin(c, m, fuel - 1)
  {}

  lemma {:induction false} PlainOneMore(c: Context, f: Node, v: Json, p: string, fuel: nat)
    requires fuel > 0 && EndsInside(c, f, fuel) && f.composition.None? && Plain(c, f, v, p, fuel)
    ensures Plain(c, f, v, p, fuel + 1)
    decreases fuel, 0
  {
    hide Accepts, EndsWithin;
    if !v.Null? && !Mismatch(f.typ, v) {
      match v
      case Obj(fields) =>
        forall i | 0 <= i < |f.props| ensures PropFits(c, f.props[i], fields, p, fuel + 1) {
          var q := f.props[i];
          assert PropFits(c, q, fields, p, fuel) && q in f.props;
          if q.name in fields { OneMoreLevel(c, q.schema, fields[q.name], p + "/" + q.name, fuel - 1); }
        }
      case Arr(items) =>
        if f.items.Some? {
          forall i | 0 <= i < |items| ensures Accepts(c, f.items.value, items[i], p + "/*", fuel) {
            OneMoreLevel(c, f.items.value, items[i], p + "/*", fuel - 1);
          }
        }
      case _ =>
    }
  }

  lemma {:induction false} EndsLater(c: Context, n: Node, fuel: nat)
    requires EndsWithin(c, n, fuel)
    ensures EndsWithin(c, n, fuel + 1)
    decreases fuel
  {
    hide FlattenAllOf;
    if n.ref.Some? {
      if n.ref.value in c.named { EndsLater(c, c.named[n.ref.value], fuel - 1); }
    } else {
      var f := if n.composition.Some? then FlattenAllOf(n, c.named, 0) else n;
      assert EndsInside(c, f, fuel);
      hide EndsWithin;
      if f.composition.Some? {
        forall m | m in f.composition.value.members ensures EndsWithin(c, m, fuel) { EndsLater(c, m, fuel - 1); }
      } else {
        forall q | q in f.props ensures EndsWithin(c, q.schema, fuel) { EndsLater(c, q.schema, fuel - 1); }
        if f.items.Some? { EndsLater(c, f.items.value, fuel - 1); }
      }
      assert EndsInside(c, f, fuel + 1);
    }
    EndsIs(c, n, fuel + 1);
  }

  lemma EndsIs(c: Context, n: Node, fuel: nat)
    requires fuel > 0
    ensures EndsWithin(c, n, fuel) <==>
            if n.ref.Some? then n.ref.value in c.named ==> EndsWithin(c, c.named[n.ref.value], fuel - 1)
            else EndsInside(c, if n.composition.Some? then FlattenAllOf(n, c.named, 0) else n, fuel)
  {
    hide FlattenAllOf, EndsInside;
  }

  lemma {:induction false} MoreLevels(c: Context, n: Node, v: Json, p: string, fuel: nat, more: nat)
    requires EndsWithin(c, n, fuel) && Accepts(c, n, v, p, fuel)
    ensures Accepts(c, n, v, p, fuel + more)
    decreases more
  {
    if more > 0 {
      hide Accepts, EndsWithin;
      OneMoreLevel(c, n, v, p, fuel);
      EndsLater(c, n, fuel);
      MoreLevels(c, n, v, p, fuel + 1, more - 1);
    }
  }

  lemma LevelsOnTop(c: Context, ms: seq<Node>, v: Json, p: string, fuel: nat)
    requires AllAcceptWithin(c, ms, v, p, fuel)
    requires forall m | m in ms :: LevelsOf(m, c.named) == 0 || EndsWithin(c, m, fuel)
    ensures AllAccept(c, ms, v, p, fuel)
  {
    hide Accepts, EndsWithin, LevelsOf;
    forall i | 0 <= i < |ms| ensures Accepts(c, ms[i], v, p, fuel + LevelsOf(ms[i], c.named)) {
      if LevelsOf(ms[i], c.named) > 0 { MoreLevels(c, ms[i], v, p, fuel, LevelsOf(ms[i], c.named)); }
    }
  }

  /** A member that is no reference, or that every walk gets through, needs no more levels than
      the node. */
  lemma AllOfForwardWithin(c: Context, n: Node, v: Json, p: string, fuel: nat)
    requires n.ref.None? && IsAllOf(n) && Uncut(n, c.named, 0)
    requires AllAcceptWithin(c, n.composition.value.members, v, p, fuel)
    requires forall m | m in n.composition.value.members :: LevelsOf(m, c.named) == 0 || EndsWithin(c, m, fuel)
    requires var fs := MembersOf(n, c.named); Conflict(fs) || (AllBare(fs) && NullForward(fs) && EnumForward(fs))
    ensures Accepts(c, n, v, p, fuel)
  {
    var ms := n.composition.value.members;
    hide *;
    LevelsOnTop(c, ms, v, p, fuel);
    AllOfForward(c, n, v, p, fuel);
  }

  /** In general: of a value every member accepts with so many levels, the node with as many
      accepts exactly what they still accept with the levels of their references on top. */
  lemma WithinExactly(c: Context, n: Node, v: Json, p: string, fuel: nat)
    requires n.ref.None? && IsAllOf(n) && Uncut(n, c.named, 0) && fuel > 0
    requires AllAcceptWithin(c, n.composition.value.members, v, p, fuel)
    requires var fs := MembersOf(n, c.named);
             !Conflict(fs) && AllBare(fs) && NullForward(fs) && EnumForward(fs) && NullBack(fs) && EnumBack(fs)
             && NoRepeats(fs) && (Mismatch(TypeOf(fs), v) ==> !c.redacted(p))
    ensures Accepts(c, n, v, p, fuel) <==> AllAccept(c, n.composition.value.members, v, p, fuel)
  {
    hide *;
    NothingForgotten(c, MembersOf(n, c.named), v, p, fuel);
    AllOfExactly(c, n, v, p, fuel);
  }

  // ---- What levels, repeats and conflicts cost ----

  function Leaf(typ: string): Node { Node(None, None, typ, false, None, None, []) }

  function RefNode(name: string): Node { Node(Some(name), None, "unknown", false, None, None, []) }

  function AllOfNode(ms: seq<Node>): Node { Node(None, Some(Composition("allOf", ms)), "unknown", false, None, None, []) }

  function Lists(depth: nat): Node { if depth == 0 then Leaf("string") else Node(None, None, "array", false, None, Some(Lists(depth - 1)), []) }

  function ListsOf(depth: nat): Json {
    if depth == 0 then Zero() else Canonical.Arr([ListsOf(depth - 1)])
  }

  function RefName(k: nat): string { seq(k, _ => 'r') }

  /** A chain of named references, the last of which leads to nested lists of strings. */
  function Chain(links: nat, depth: nat): Table
    requires links > 0
  {
    if links == 1 then map[RefName(1) := Lists(depth)] else Chain(links - 1, depth)[RefName(links) := RefNode(RefName(links - 1))]
  }

  lemma {:induction false} ChainAt(links: nat, depth: nat, k: nat)
    requires 0 < k <= links
    ensures RefName(k) in Chain(links, depth)
    ensures Chain(links, depth)[RefName(k)] == if k == 1 then Lists(depth) else RefNode(RefName(k - 1))
  {
    if k < links {
      ChainAt(links - 1, depth, k);
      assert |RefName(k)| != |RefName(links)|;
    }
  }

  /** The value differs from the schema just so many levels down. */
  lemma {:induction false} ListsReject(c: Context, depth: nat, p: string, fuel: nat)
    requires forall q :: !c.redacted(q)
    ensures Accepts(c, Lists(depth), ListsOf(depth), p, fuel) <==> fuel <= depth
    decreases depth
  {
    if fuel > 0 {
      if depth == 0 {
        LeafTakes(c, "string", ListsOf(0), p, fuel);
      } else {
        ListsReject(c, depth - 1, p + "/*", fuel - 1);
        var v, n := ListsOf(depth), Lists(depth);
        assert v.items == [ListsOf(depth - 1)] && !Mismatch(n.typ, v);
        PlainIs(c, n, v, p, fuel);
        assert Inside(c, n, v, p, fuel) <==> Accepts(c, n.items.value, v.items[0], p + "/*", fuel - 1);
      }
    }
  }

  lemma {:induction false} ChainLevels(t: Table, links: nat, depth: nat, k: nat, hops: nat)
    requires 0 < k <= links && k <= hops && t == Chain(links, depth)
    ensures Follow(RefNode(RefName(k)), t, hops) == Lists(depth) && Levels(RefNode(RefName(k)), t, hops) == k
    ensures !Missing(RefNode(RefName(k)), t, hops)
    decreases k
  {
    ChainAt(links, depth, k);
    if k > 1 { ChainLevels(t, links, depth, k - 1, hops - 1); }
  }

  /** A reference costs a member a level that the node does not pay. So with one level less than
      its references take, a member can accept what the node rejects, though all conditions hold:
      for every number of levels and every chain of references that flattening follows. */
  lemma LevelsRunOut(c: Context, links: nat, fuel: nat) returns (n: Node, v: Json)
    requires 0 < links <= MAX_FLATTEN_DEPTH && fuel > 0 && c.named == Chain(links, fuel - 1) && forall q :: !c.redacted(q)
    ensures n == AllOfNode([RefNode(RefName(links))]) && Uncut(n, c.named, 0)
    ensures var fs := MembersOf(n, c.named); !Conflict(fs) && AllBare(fs) && NullForward(fs) && EnumForward(fs)
    ensures LevelsOf(RefNode(RefName(links)), c.named) == links
    ensures AllAcceptWithin(c, n.composition.value.members, v, "", fuel + links - 1) && !Accepts(c, n, v, "", fuel)
  {
    hide *;
    var m := RefNode(RefName(links));
    n, v := AllOfNode([m]), ListsOf(fuel - 1);
    ListsReject(c, fuel - 1, "", fuel);
    ListsAlone(fuel - 1);
    ChainEnds(c, links, fuel, m, v);
    MemberAlone(n, m, c.named, Lists(fuel - 1));
    OneMember(c, n, m, v, fuel + links - 1);
    ListsJudged(c, n, fuel - 1, v, fuel);
  }

  lemma OneMember(c: Context, n: Node, m: Node, v: Json, fuel: nat)
    requires n == AllOfNode([m]) && Accepts(c, m, v, "", fuel)
    ensures n.ref.None? && IsAllOf(n) && AllAcceptWithin(c, n.composition.value.members, v, "", fuel)
  {
    hide Accepts;
  }

  lemma ChainEnds(c: Context, links: nat, fuel: nat, m: Node, v: Json)
    requires 0 < links <= MAX_FLATTEN_DEPTH && fuel > 0 && c.named == Chain(links, fuel - 1) && forall q :: !c.redacted(q)
    requires m == RefNode(RefName(links)) && v == ListsOf(fuel - 1)
    ensures Accepts(c, m, v, "", fuel + links - 1)
    ensures LevelsOf(m, c.named) == links && Follow(m, c.named, MAX_FLATTEN_DEPTH) == Lists(fuel - 1)
  {
    hide Chain, RefName, Follow, Levels, Lists, ListsOf, Accepts;
    ChainLevels(c.named, links, fuel - 1, links, MAX_FLATTEN_DEPTH);
    ListsReject(c, fuel - 1, "", fuel - 1);
    FollowAccepts(c, m, v, "", MAX_FLATTEN_DEPTH, fuel - 1);
  }

  lemma ListsAlone(depth: nat)
    ensures var f := Lists(depth); f.ref.None? && f.composition.None? && f.enums.None? && f.props == [] && Known(f.typ)
  {}

  lemma ListsJudged(c: Context, n: Node, depth: nat, v: Json, fuel: nat)
    requires n.ref.None? && IsAllOf(n) && MembersOf(n, c.named) == [Lists(depth)] && fuel > 0
    ensures Accepts(c, n, v, "", fuel) <==> Accepts(c, Lists(depth), v, "", fuel)
  {
    ListsAlone(depth);
    Alone(Lists(depth));
    hide Plain, FlattenAllOf, MembersOf, Lists;
    NodeIs(c, n, v, "", fuel);
  }

  lemma MemberAlone(n: Node, m: Node, t: Table, f: Node)
    requires n == AllOfNode([m]) && f == Follow(m, t, MAX_FLATTEN_DEPTH)
    requires f.ref.None? && f.composition.None? && f.enums.None? && f.props == [] && Known(f.typ)
    ensures Uncut(n, t, 0) && MembersOf(n, t) == [f]
    ensures var fs := MembersOf(n, t); !Conflict(fs) && AllBare(fs) && NullForward(fs) && EnumForward(fs)
  {
    UncutEnd(m, t);
    UncutAlone(n, m, t);
    Alone(f);
    EachAt([m], t, 1, 0);
    hide Follow, Uncut;
    assert FlattenAllOf(m, t, 1) == f;
  }

  lemma UncutAlone(n: Node, m: Node, t: Table)
    requires n == AllOfNode([m]) && Uncut(m, t, 1)
    ensures Uncut(n, t, 0)
  {
    assert Follow(n, t, MAX_FLATTEN_DEPTH) == n;
    var ms := n.composition.value.members;
    assert forall i | 0 <= i < |ms| :: ms[i] == m;
  }

  lemma UncutEnd(m: Node, t: Table)
    requires Follow(m, t, MAX_FLATTEN_DEPTH).ref.None? && Follow(m, t, MAX_FLATTEN_DEPTH).composition.None?
    ensures Uncut(m, t, 1)
  {
    hide Follow;
  }

  /** A member by itself, without enum or properties, is what it is merged to. */
  lemma Alone(f: Node)
    requires f.ref.None? && f.composition.None? && f.enums.None? && f.props == [] && Known(f.typ)
    ensures Merged([f]) == f && !Conflict([f]) && AllBare([f]) && NullForward([f]) && EnumForward([f])
  {
    var fs := [f];
    assert Front(fs) == [] && Last(fs) == f;
    assert TypeOf(fs) == f.typ;
    FirstItems(fs);
    assert forall i | 0 <= i < |fs| :: fs[i].enums.None?;
    EnumOfIs(fs, Word(""));
    NoProps(fs);
    assert AllNullable(fs) <==> f.nullable;
    assert !Conflict(fs);
    assert !MergedNull(fs) ==> !AcceptsNull(fs[0]);
  }

  lemma NoProps(fs: seq<Node>)
    requires |fs| == 1 && fs[0].props == []
    ensures PropsOf(fs) == []
  {
    assert PropsOf([]) == [];
    assert PropsOf(fs) == AddProps(PropsOf([]), []);
  }

  /** The same at the levels a walk of a response has: a member one reference away. */
  lemma WalkRunsOut(c: Context) returns (n: Node, v: Json)
    requires c.named == Chain(1, MAX_WALK_DEPTH) && forall q :: !c.redacted(q)
    ensures n == AllOfNode([RefNode("r")]) && Uncut(n, c.named, 0)
    ensures var fs := MembersOf(n, c.named); !Conflict(fs) && AllBare(fs) && NullForward(fs) && EnumForward(fs)
    ensures AllAcceptWithin(c, n.composition.value.members, v, "", MAX_WALK_DEPTH + 1)
    ensures !Accepts(c, n, v, "", MAX_WALK_DEPTH + 1)
  {
    assert RefName(1) == "r";
    n, v := LevelsRunOut(c, 1, MAX_WALK_DEPTH + 1);
  }

  lemma Flat(n: Node, t: Table)
    requires n.ref.None? && n.composition.None?
    ensures FlattenAllOf(n, t, 1) == n && Uncut(n, t, 1) && LevelsOf(n, t) == 0
  {}

  /** Two members that are neither references nor compositions are taken as they are. */
  lemma TwoMembers(a: Node, b: Node, t: Table)
    requires a.ref.None? && a.composition.None? && b.ref.None? && b.composition.None?
    ensures var n := AllOfNode([a, b]);
            MembersOf(n, t) == [a, b] && Uncut(n, t, 0) && LevelsOf(a, t) == LevelsOf(b, t) == 0
  {
    hide FlattenAllOf, FlattenEach, LevelsOf, Uncut;
    var n := AllOfNode([a, b]);
    Flat(a, t);
    Flat(b, t);
    MemberAt(n, t, 0);
    MemberAt(n, t, 1);
    UncutBoth(n, a, b, t);
  }

  lemma UncutBoth(n: Node, a: Node, b: Node, t: Table)
    requires n == AllOfNode([a, b]) && Uncut(a, t, 1) && Uncut(b, t, 1)
    ensures Uncut(n, t, 0)
  {
    assert Follow(n, t, MAX_FLATTEN_DEPTH) == n;
    assert forall m | m in [a, b] :: Uncut(m, t, 1);
  }

  function Zero(): Json { Canonical.Num(Canonical.JsNumber.Zero(false)) }

  lemma LeafTakes(c: Context, typ: string, v: Json, p: string, fuel: nat)
    requires fuel > 0 && v.Num? && !c.redacted(p)
    ensures Accepts(c, Leaf(typ), v, p, fuel) <==> !Mismatch(typ, v)
  {
    assert Inside(c, Leaf(typ), v, p, fuel);
    hide Mismatch, Inside;
    assert Plain(c, Leaf(typ), v, p, fuel) <==> !Mismatch(typ, v);
  }

  function WithProp(typ: string): Node { Node(None, None, "object", false, None, None, [Property("a", false, Leaf(typ))]) }

  /** A property declared twice keeps only its last schema: the node accepts what the first
      member rejects. */
  lemma RepeatForgets(c: Context, p: string, fuel: nat) returns (n: Node, v: Json)
    requires fuel > 1 && !c.redacted(p) && !c.redacted(p + "/" + "a")
    ensures n == AllOfNode([WithProp("string"), WithProp("number")])
    ensures Accepts(c, n, v, p, fuel) && !Accepts(c, WithProp("string"), v, p, fuel)
  {
    var a, b := WithProp("string"), WithProp("number");
    n, v := AllOfNode([a, b]), Canonical.Obj(map["a" := Zero()]);
    TwoMembers(a, b, c.named);
    RepeatedProp([a, b]);
    LeafTakes(c, "number", Zero(), p + "/" + "a", fuel - 1);
    LeafTakes(c, "string", Zero(), p + "/" + "a", fuel - 1);
    NodeIs(c, n, v, p, fuel);
    OneProp(c, Merged([a, b]), "number", v, p, fuel);
    OneProp(c, a, "string", v, p, fuel);
  }

  lemma OneProp(c: Context, f: Node, typ: string, v: Json, p: string, fuel: nat)
    requires fuel > 1 && !c.redacted(p) && v == Canonical.Obj(map["a" := Zero()])
    requires f.typ == "object" && f.props == [Property("a", false, Leaf(typ))]
    ensures Plain(c, f, v, p, fuel) <==> Accepts(c, Leaf(typ), Zero(), p + "/" + "a", fuel - 1)
  {
    hide Accepts;
    PlainIs(c, f, v, p, fuel);
    InsideObj(c, f, v, p, fuel);
    assert PropFits(c, f.props[0], v.fields, p, fuel) <==> Accepts(c, Leaf(typ), Zero(), p + "/" + "a", fuel - 1);
  }

  lemma RepeatedProp(fs: seq<Node>)
    requires fs == [WithProp("string"), WithProp("number")]
    ensures PropsOf(fs) == [Property("a", false, Leaf("number"))]
    ensures TypeOf(fs) == "object" && !Conflict(fs) && EnumOf(fs).None?
  {
    var a, b := Property("a", false, Leaf("string")), Property("a", false, Leaf("number"));
    hide Leaf;
    var none: seq<Node>, one := [], [fs[0]];
    assert Front(fs) == one && Front(one) == none && Last(one) == fs[0];
    assert Front([a]) == [] && Front([b]) == [];
    assert AddProps([], [a]) == AddProp([], a) == [a];
    assert AddProps([a], [b]) == AddProp([a], b) == [b];
    assert PropsOf(none) == [] && TypeOf(none) == "" && !Conflict(none) && EnumOf(none).None?;
    assert PropsOf(one) == AddProps(PropsOf(none), fs[0].props) == [a];
    assert TypeOf(one) == "object" && !Conflict(one) && EnumOf(one).None?;
  }

  function WithItems(typ: string): Node { Node(None, None, "array", false, None, Some(Leaf(typ)), []) }

  /** Of items declared twice the first are kept: the node accepts what the second member rejects. */
  lemma SecondItemsForgotten(c: Context, p: string, fuel: nat) returns (n: Node, v: Json)
    requires fuel > 1 && !c.redacted(p) && !c.redacted(p + "/*")
    ensures n == AllOfNode([WithItems("number"), WithItems("string")])
    ensures Accepts(c, n, v, p, fuel) && !Accepts(c, WithItems("string"), v, p, fuel)
  {
    var a, b := WithItems("number"), WithItems("string");
    n, v := AllOfNode([a, b]), Canonical.Arr([Zero()]);
    TwoMembers(a, b, c.named);
    assert Front([a, b]) == [a] && Front([a]) == [];
    LeafTakes(c, "number", Zero(), p + "/*", fuel - 1);
    LeafTakes(c, "string", Zero(), p + "/*", fuel - 1);
    NodeIs(c, n, v, p, fuel);
    var f := Merged([a, b]);
    assert TypeOf([a]) == "array" && !Conflict([a]) && ItemsOf([a]) == a.items;
    assert TypeOf([a, b]) == "array" && !Conflict([a, b]) && f.items == a.items;
    OneItem(c, f, "number", v, p, fuel);
    OneItem(c, b, "string", v, p, fuel);
  }

  lemma OneItem(c: Context, f: Node, typ: string, v: Json, p: string, fuel: nat)
    requires fuel > 1 && !c.redacted(p) && v == Canonical.Arr([Zero()])
    requires f.typ == "array" && f.items == Some(Leaf(typ))
    ensures Plain(c, f, v, p, fuel) <==> Accepts(c, Leaf(typ), Zero(), p + "/*", fuel - 1)
  {
    hide Accepts;
    PlainIs(c, f, v, p, fuel);
    assert Inside(c, f, v, p, fuel) <==> Accepts(c, Leaf(typ), v.items[0], p + "/*", fuel - 1);
  }

  /** Members that cannot be merged leave a choice: one member's word is enough. */
  lemma ConflictLoosens(c: Context, p: string, fuel: nat) returns (n: Node, v: Json)
    requires fuel > 1 && !c.redacted(p)
    ensures n.ref.None? && IsAllOf(n) && Conflict(MembersOf(n, c.named))
    ensures Accepts(c, n, v, p, fuel) && !Accepts(c, n.composition.value.members[0], v, p, fuel)
  {
    var a, b := Leaf("string"), Leaf("number");
    n, v := AllOfNode([a, b]), Zero();
    TwoMembers(a, b, c.named);
    assert Front([a, b]) == [a] && Front([a]) == [];
    NodeIs(c, n, v, p, fuel);
    LeafTakes(c, "string", v, p, fuel);
    LeafTakes(c, "number", v, p, fuel - 1);
    assert Accepts(c, [a, b][1], v, p, fuel - 1);
  }
}
