/** Flattening allOf: one node in place of its members, and what acceptance makes of it. */
module Flatten {
  import opened Text
  import Canonical

  type Json = Canonical.Value

  const MAX_FLATTEN_DEPTH: nat := 32
  const MAX_WALK_DEPTH: nat := 12

  /** An enum value: a string, or anything else by its printed text. */
  datatype EnumValue = Word(s: string) | Other(text: string)

  /** A schema node; `typ` is empty or "unknown" where no type is declared. */
  datatype Node = Node(
    ref: Option<string>, composition: Option<Composition>, typ: string, nullable: bool,
    enums: Option<seq<EnumValue>>, items: Option<Node>, props: seq<Property>)

  datatype Composition = Composition(kind: string, members: seq<Node>)

  datatype Property = Property(name: string, required: bool, schema: Node)

  type Table = map<string, Node>

  // ---- The transformation ----

  /** Follows references, up to a number of hops, while they lead somewhere. */
  function Follow(n: Node, t: Table, hops: nat): Node
    decreases hops
  {
    if hops > 0 && n.ref.Some? && n.ref.value in t then Follow(t[n.ref.value], t, hops - 1) else n
  }

  /** The references lead nowhere, and this is found out before the hops run out. */
  predicate Missing(n: Node, t: Table, hops: nat)
    decreases hops
  {
    hops > 0 && n.ref.Some? && (n.ref.value in t ==> Missing(t[n.ref.value], t, hops - 1))
  }

  predicate IsAllOf(n: Node) { n.composition.Some? && n.composition.value.kind == "allOf" }

  predicate Known(typ: string) { typ != "" && typ != "unknown" }

  /** The first type the members declare. */
  function TypeOf(fs: seq<Node>): string {
    if fs == [] then ""
    else if TypeOf(Front(fs)) != "" then TypeOf(Front(fs))
    else if Known(Last(fs).typ) then Last(fs).typ else ""
  }

  /** Members that cannot be merged: one is a choice, or two types differ. */
  predicate Conflict(fs: seq<Node>) {
    fs != [] && (Conflict(Front(fs)) || Last(fs).composition.Some?
                 || (Known(Last(fs).typ) && TypeOf(Front(fs)) != "" && TypeOf(Front(fs)) != Last(fs).typ))
  }

  function Intersect(a: seq<EnumValue>, b: seq<EnumValue>): seq<EnumValue> {
    if a == [] then [] else Intersect(Front(a), b) + if Last(a) in b then [Last(a)] else []
  }

  function EnumOf(fs: seq<Node>): Option<seq<EnumValue>> {
    if fs == [] then None
    else
      var before, e := EnumOf(Front(fs)), Last(fs).enums;
      if e.None? then before else if before.None? then e else Some(Intersect(before.value, e.value))
  }

  function ItemsOf(fs: seq<Node>): Option<Node> {
    if fs == [] then None
    else if ItemsOf(Front(fs)).Some? then ItemsOf(Front(fs)) else Last(fs).items
  }

  /** A later schema of the same name replaces the earlier one; required stays required. */
  function AddProp(ps: seq<Property>, p: Property): seq<Property> {
    if ps == [] then [p]
    else if ps[0].name == p.name then [p.(required := ps[0].required || p.required)] + ps[1..]
    else [ps[0]] + AddProp(ps[1..], p)
  }

  function AddProps(ps: seq<Property>, more: seq<Property>): seq<Property> {
    if more == [] then ps else AddProp(AddProps(ps, Front(more)), Last(more))
  }

  function PropsOf(fs: seq<Node>): seq<Property> {
    if fs == [] then [] else AddProps(PropsOf(Front(fs)), Last(fs).props)
  }

  predicate AllNullable(fs: seq<Node>) { forall i | 0 <= i < |fs| :: fs[i].nullable }

  function Merged(fs: seq<Node>): Node {
    Node(None, None, TypeOf(fs), fs != [] && AllNullable(fs), EnumOf(fs), ItemsOf(fs), PropsOf(fs))
  }

  function FlattenAllOf(n: Node, t: Table, depth: nat): Node
    decreases MAX_FLATTEN_DEPTH + 1 - depth, 1, 0
  {
    if depth > MAX_FLATTEN_DEPTH then n
    else
      var m := Follow(n, t, MAX_FLATTEN_DEPTH);
      if Missing(n, t, MAX_FLATTEN_DEPTH) || !IsAllOf(m) then m
      else
        var fs := FlattenEach(m.composition.value.members, t, depth + 1);
        if Conflict(fs) then m else Merged(fs)
  }

  function FlattenEach(ms: seq<Node>, t: Table, depth: nat): (fs: seq<Node>)
    ensures |fs| == |ms|
    decreases MAX_FLATTEN_DEPTH + 1 - depth, 2, |ms|
  {
    if ms == [] then [] else FlattenEach(Front(ms), t, depth) + [FlattenAllOf(Last(ms), t, depth)]
  }

  // ---- What a node accepts ----

  /** The documented schemas, and what is known of each place of the response. */
  datatype Context = Context(named: Table, redacted: string -> bool, dropped: string -> bool, volatile: string -> bool)

  function ScalarClass(typ: string): string {
    if typ == "integer" || typ == "number" then "number"
    else if typ == "string" || typ == "boolean" || typ == "object" || typ == "array" then typ
    else ""
  }

  function JsonClass(v: Json): string {
    match v
    case Str(_) => "string"
    case Num(_) => "number"
    case Bool(_) => "boolean"
    case Obj(_) => "object"
    case Arr(_) => "array"
    case Null => ""
  }

  predicate Mismatch(typ: string, v: Json) {
    ScalarClass(typ) != "" && JsonClass(v) != "" && JsonClass(v) != ScalarClass(typ)
  }

  predicate AllWords(es: seq<EnumValue>) { forall i | 0 <= i < |es| :: es[i].Word? }

  /** Only a non-empty list of strings is checked. */
  predicate Checked(e: Option<seq<EnumValue>>) { e.Some? && e.value != [] && AllWords(e.value) }

  predicate Passes(e: Option<seq<EnumValue>>, s: string) { Checked(e) ==> Word(s) in e.value }

  /** No violation is found walking `v` at `p` with `fuel` levels left. The walk of a response
      starts with `MAX_WALK_DEPTH + 1` levels; a reference, a choice, a property and an item
      take one each. */
  predicate Accepts(c: Context, n: Node, v: Json, p: string, fuel: nat)
    decreases fuel, 4
  {
    if fuel == 0 then true
    else if n.ref.Some? then n.ref.value in c.named ==> Accepts(c, c.named[n.ref.value], v, p, fuel - 1)
    else
      var f := if n.composition.Some? then FlattenAllOf(n, c.named, 0) else n;
      if f.composition.Some? then AcceptsAny(c, f.composition.value.members, v, p, fuel)
      else Plain(c, f, v, p, fuel)
  }

  predicate AcceptsAny(c: Context, ms: seq<Node>, v: Json, p: string, fuel: nat)
    requires fuel > 0
    decreases fuel, 3
  {
    exists i | 0 <= i < |ms| :: Accepts(c, ms[i], v, p, fuel - 1)
  }

  /** The node's own type, enum, properties and items; references and choices are not looked at. */
  predicate Plain(c: Context, f: Node, v: Json, p: string, fuel: nat)
    requires fuel > 0
    decreases fuel, 2
  {
    if v.Null? then f.nullable || f.typ == "" || c.redacted(p)
    else if Mismatch(f.typ, v) then c.redacted(p)
    else (v.Str? ==> c.volatile(p) || c.redacted(p) || Passes(f.enums, v.s)) && Inside(c, f, v, p, fuel)
  }

  predicate Inside(c: Context, f: Node, v: Json, p: string, fuel: nat)
    requires fuel > 0
    decreases fuel, 1
  {
    match v
    case Obj(fields) => forall i | 0 <= i < |f.props| :: PropFits(c, f.props[i], fields, p, fuel)
    case Arr(items) => f.items.Some? ==> forall i | 0 <= i < |items| :: Accepts(c, f.items.value, items[i], p + "/*", fuel - 1)
    case _ => true
  }

  predicate PropFits(c: Context, q: Property, fields: map<string, Json>, p: string, fuel: nat)
    requires fuel > 0
    decreases fuel, 0
  {
    if q.name in fields then Accepts(c, q.schema, fields[q.name], p + "/" + q.name, fuel - 1)
    else q.required ==> c.dropped(p + "/" + q.name)
  }

  /** A type that is none of the six, and null, are never at odds with anything. Otherwise a string
      has to be a string, a boolean a boolean, and so on; integers and numbers are one. */
  lemma MismatchIs(typ: string, v: Json)
    ensures Mismatch(typ, v) <==>
            && !v.Null? && typ in {"string", "boolean", "object", "array", "integer", "number"}
            && !(typ == "string" && v.Str?) && !(typ == "boolean" && v.Bool?) && !(typ == "object" && v.Obj?)
            && !(typ == "array" && v.Arr?) && !(typ in {"integer", "number"} && v.Num?)
  {}

  /** A string fails an enum exactly if that lists strings, only strings, and not this one. */
  lemma PassesIs(e: Option<seq<EnumValue>>, s: string)
    ensures !Passes(e, s) <==>
            e.Some? && (exists w :: Word(w) in e.value) && (forall x | x in e.value :: x.Word?) && Word(s) !in e.value
  {
    if e.Some? && e.value != [] && AllWords(e.value) { assert Word(e.value[0].s) in e.value; }
  }

  // ---- More levels find no fewer violations ----

  lemma {:induction false} FewerLevels(c: Context, n: Node, v: Json, p: string, fuel: nat)
    requires Accepts(c, n, v, p, fuel) && fuel > 0
    ensures Accepts(c, n, v, p, fuel - 1)
    decreases fuel, 2
  {
    if fuel > 1 {
      hide FlattenAllOf;
      if n.ref.Some? {
        if n.ref.value in c.named { FewerLevels(c, c.named[n.ref.value], v, p, fuel - 1); }
      } else {
        var f := if n.composition.Some? then FlattenAllOf(n, c.named, 0) else n;
        if f.composition.Some? {
          var i :| 0 <= i < |f.composition.value.members| && Accepts(c, f.composition.value.members[i], v, p, fuel - 1);
          FewerLevels(c, f.composition.value.members[i], v, p, fuel - 1);
        } else {
          PlainFewer(c, f, v, p, fuel);
        }
      }
    }
  }

  lemma {:induction false} PlainFewer(c: Context, f: Node, v: Json, p: string, fuel: nat)
    requires fuel > 1 && Plain(c, f, v, p, fuel)
    ensures Plain(c, f, v, p, fuel - 1)
    decreases fuel, 1
  {
    hide Accepts;
    if !v.Null? && !Mismatch(f.typ, v) {
      match v
      case Obj(fields) =>
        forall i | 0 <= i < |f.props| ensures PropFits(c, f.props[i], fields, p, fuel - 1) {
          var q := f.props[i];
          assert PropFits(c, q, fields, p, fuel);
          if q.name in fields { FewerLevels(c, q.schema, fields[q.name], p + "/" + q.name, fuel - 1); }
        }
      case Arr(items) =>
        if f.items.Some? {
          forall i | 0 <= i < |items| ensures Accepts(c, f.items.value, items[i], p + "/*", fuel - 2) {
            FewerLevels(c, f.items.value, items[i], p + "/*", fuel - 1);
          }
        }
      case _ =>
    }
  }

  // ---- What merging keeps ----

  lemma {:induction false} TypeOfIs(fs: seq<Node>)
    requires !Conflict(fs)
    ensures TypeOf(fs) == "" <==> forall i | 0 <= i < |fs| :: !Known(fs[i].typ)
    ensures forall i | 0 <= i < |fs| :: Known(fs[i].typ) ==> fs[i].typ == TypeOf(fs)
    ensures forall i | 0 <= i < |fs| :: fs[i].composition.None?
    ensures TypeOf(fs) != "" ==> Known(TypeOf(fs)) && exists i | 0 <= i < |fs| :: fs[i].typ == TypeOf(fs)
  {
    if fs != [] {
      TypeOfIs(Front(fs));
      assert Last(fs) == fs[|fs| - 1];
      assert forall i | 0 <= i < |Front(fs)| :: Front(fs)[i] == fs[i];
    }
  }

  /** The first type declared among the members is the type so far. */
  lemma {:induction false} FirstType(fs: seq<Node>)
    ensures TypeOf(fs) == "" <==> forall i | 0 <= i < |fs| :: !Known(fs[i].typ)
    ensures TypeOf(fs) != "" ==>
              exists i | 0 <= i < |fs| :: Known(fs[i].typ) && fs[i].typ == TypeOf(fs) && forall j | 0 <= j < i :: !Known(fs[j].typ)
  {
    if fs != [] {
      FirstType(Front(fs));
      assert Last(fs) == fs[|fs| - 1];
      assert forall i | 0 <= i < |Front(fs)| :: Front(fs)[i] == fs[i];
    }
  }

  /** Members cannot be merged exactly if one of them is a choice or two declare different types. */
  lemma {:induction false} ConflictIff(fs: seq<Node>)
    ensures Conflict(fs) <==>
            || (exists i | 0 <= i < |fs| :: fs[i].composition.Some?)
            || (exists i, j | 0 <= i < j < |fs| :: Known(fs[i].typ) && Known(fs[j].typ) && fs[i].typ != fs[j].typ)
  {
    if fs != [] {
      var front, n := Front(fs), |fs| - 1;
      ConflictIff(front);
      assert Last(fs) == fs[n] && forall i | 0 <= i < |front| :: front[i] == fs[i];
      if !Conflict(front) {
        TypeOfIs(front);
        forall i | 0 <= i < n && Known(fs[i].typ) ensures fs[i].typ == TypeOf(front) { assert front[i] == fs[i]; }
      }
    }
  }

  lemma {:induction false} IntersectIs(a: seq<EnumValue>, b: seq<EnumValue>, x: EnumValue)
    ensures x in Intersect(a, b) <==> x in a && x in b
  {
    if a != [] {
      IntersectIs(Front(a), b, x);
      assert x in a <==> x in Front(a) || x == Last(a);
    }
  }

  /** The merged enum is the intersection of those declared. */
  lemma {:induction false} EnumOfIs(fs: seq<Node>, x: EnumValue)
    ensures EnumOf(fs).None? <==> forall i | 0 <= i < |fs| :: fs[i].enums.None?
    ensures EnumOf(fs).Some? ==>
              (x in EnumOf(fs).value <==> forall i | 0 <= i < |fs| :: fs[i].enums.Some? ==> x in fs[i].enums.value)
  {
    if fs != [] {
      EnumOfIs(Front(fs), x);
      assert Last(fs) == fs[|fs| - 1];
      assert forall i | 0 <= i < |Front(fs)| :: Front(fs)[i] == fs[i];
      if EnumOf(Front(fs)).Some? && Last(fs).enums.Some? {
        IntersectIs(EnumOf(Front(fs)).value, Last(fs).enums.value, x);
      }
    }
  }

  /** The merged items are the first that a member declares. */
  lemma {:induction false} FirstItems(fs: seq<Node>)
    ensures ItemsOf(fs).Some? ==>
              exists i | 0 <= i < |fs| :: fs[i].items == ItemsOf(fs) && forall j | 0 <= j < i :: fs[j].items.None?
    ensures ItemsOf(fs).None? ==> forall i | 0 <= i < |fs| :: fs[i].items.None?
  {
    if fs != [] {
      FirstItems(Front(fs));
      assert Last(fs) == fs[|fs| - 1];
      assert forall i | 0 <= i < |Front(fs)| :: Front(fs)[i] == fs[i];
    }
  }

  /** All properties the members list, in order. */
  function AllProps(fs: seq<Node>): seq<Property> { if fs == [] then [] else AllProps(Front(fs)) + Last(fs).props }

  lemma {:induction false} AddPropsAppend(ps: seq<Property>, a: seq<Property>, b: seq<Property>)
    ensures AddProps(AddProps(ps, a), b) == AddProps(ps, a + b)
  {
    if b == [] {
      assert a + b == a;
    } else {
      AddPropsAppend(ps, a, Front(b));
      assert Front(a + b) == a + Front(b);
    }
  }

  lemma {:induction false} PropsOfAll(fs: seq<Node>)
    ensures PropsOf(fs) == AddProps([], AllProps(fs))
  {
    if fs != [] {
      PropsOfAll(Front(fs));
      AddPropsAppend([], AllProps(Front(fs)), Last(fs).props);
    }
  }

  predicate LastAt(all: seq<Property>, name: string, k: nat) {
    k < |all| && all[k].name == name && forall j | k < j < |all| :: all[j].name != name
  }

  predicate FirstAt(all: seq<Property>, name: string, k: nat) {
    k < |all| && all[k].name == name && forall j | 0 <= j < k :: all[j].name != name
  }

  /** A property stands for all of its name: the schema is that of the last, and it is required
      if one of them is. */
  ghost predicate StandsFor(all: seq<Property>, q: Property) {
    && (exists k: nat | k < |all| && LastAt(all, q.name, k) :: q.schema == all[k].schema)
    && (q.required <==> exists k | 0 <= k < |all| :: all[k].name == q.name && all[k].required)
  }

  ghost predicate FirstsAscend(all: seq<Property>, out: seq<Property>) {
    forall i, j, a: nat, b: nat | 0 <= i < j < |out| && FirstAt(all, out[i].name, a) && FirstAt(all, out[j].name, b) :: a < b
  }

  ghost predicate AllNamed(all: seq<Property>, out: seq<Property>) {
    forall k | 0 <= k < |all| :: exists i | 0 <= i < |out| :: out[i].name == all[k].name
  }

  /** Of the properties listed each name is there once, in the order of first mention. */
  ghost predicate ListsOnce(all: seq<Property>, out: seq<Property>) {
    && (forall i, j | 0 <= i < j < |out| :: out[i].name != out[j].name)
    && AllNamed(all, out) && FirstsAscend(all, out)
    && (forall i | 0 <= i < |out| :: StandsFor(all, out[i]))
  }

  /** A property takes the place of the one of its name, or comes last. */
  lemma {:induction false} AddPropIs(ps: seq<Property>, p: Property) returns (at: nat)
    ensures at <= |ps| && forall i | 0 <= i < at :: ps[i].name != p.name
    ensures at == |ps| ==> AddProp(ps, p) == ps + [p]
    ensures at < |ps| ==> ps[at].name == p.name && AddProp(ps, p) == ps[at := p.(required := ps[at].required || p.required)]
  {
    if ps == [] || ps[0].name == p.name {
      at := 0;
    } else {
      var rest := ps[1..];
      var k := AddPropIs(rest, p);
      assert forall i | 1 <= i < |ps| :: ps[i] == rest[i - 1];
      at := k + 1;
    }
  }

  lemma MoreAt(all: seq<Property>, p: Property, name: string, k: nat)
    ensures k < |all| && name != p.name ==> (LastAt(all + [p], name, k) <==> LastAt(all, name, k))
    ensures k < |all| ==> (FirstAt(all + [p], name, k) <==> FirstAt(all, name, k))
    ensures LastAt(all + [p], p.name, |all|)
  {
    var more := all + [p];
    assert more[|all|] == p && forall j | 0 <= j < |all| :: more[j] == all[j];
  }

  lemma RequiredBy(all: seq<Property>, p: Property, name: string)
    ensures (exists k | 0 <= k < |all + [p]| :: (all + [p])[k].name == name && (all + [p])[k].required)
            <==> (exists k | 0 <= k < |all| :: all[k].name == name && all[k].required) || (p.name == name && p.required)
  {
    var more := all + [p];
    assert more[|all|] == p && forall j | 0 <= j < |all| :: more[j] == all[j];
  }

  /** Another name changes nothing. */
  lemma StandsStill(all: seq<Property>, p: Property, q: Property)
    requires StandsFor(all, q) && q.name != p.name
    ensures StandsFor(all + [p], q)
  {
    hide LastAt;
    RequiredBy(all, p, q.name);
    var k: nat :| k < |all| && LastAt(all, q.name, k) && q.schema == all[k].schema;
    MoreAt(all, p, q.name, k);
    assert (all + [p])[k] == all[k];
  }

  /** The last mention takes over. */
  lemma StandsLast(all: seq<Property>, p: Property, q: Property)
    requires q.name == p.name && q.schema == p.schema
    requires q.required <==> p.required || exists k | 0 <= k < |all| :: all[k].name == q.name && all[k].required
    ensures StandsFor(all + [p], q)
  {
    hide LastAt;
    RequiredBy(all, p, q.name);
    MoreAt(all, p, p.name, |all|);
    assert (all + [p])[|all|] == p;
  }

  /** What is listed was mentioned, and so mentioned first before the last property. */
  lemma FirstEarlier(all: seq<Property>, q: Property, p: Property, a: nat)
    requires StandsFor(all, q) && FirstAt(all + [p], q.name, a)
    ensures a < |all| && FirstAt(all, q.name, a)
  {
    var k: nat :| k < |all| && LastAt(all, q.name, k) && q.schema == all[k].schema;
    assert (all + [p])[k] == all[k];
    MoreAt(all, p, q.name, a);
  }

  /** Whether the last one is listed again or for the first time, the order is that of mention. */
  lemma FirstsStill(all: seq<Property>, out: seq<Property>, p: Property, out': seq<Property>)
    requires FirstsAscend(all, out) && (forall i | 0 <= i < |out| :: StandsFor(all, out[i]))
    requires |out| <= |out'| <= |out| + 1 && forall i | 0 <= i < |out| :: out'[i].name == out[i].name
    requires |out'| > |out| ==> out'[|out|].name == p.name && forall k | 0 <= k < |all| :: all[k].name != p.name
    ensures FirstsAscend(all + [p], out')
  {
    hide StandsFor;
    forall i, j, a: nat, b: nat | 0 <= i < j < |out'| && FirstAt(all + [p], out'[i].name, a) && FirstAt(all + [p], out'[j].name, b)
      ensures a < b
    {
      FirstEarlier(all, out[i], p, a);
      if j < |out| { FirstEarlier(all, out[j], p, b); }
    }
  }

  lemma Covers(all: seq<Property>, out: seq<Property>, p: Property, out': seq<Property>, at: nat)
    requires AllNamed(all, out)
    requires |out| <= |out'| && (forall i | 0 <= i < |out| :: out'[i].name == out[i].name) && at < |out'| && out'[at].name == p.name
    ensures AllNamed(all + [p], out')
  {
    var more := all + [p];
    forall k | 0 <= k < |more| ensures exists i | 0 <= i < |out'| :: out'[i].name == more[k].name {
      if k < |all| {
        var i :| 0 <= i < |out| && out[i].name == all[k].name;
        assert out'[i].name == more[k].name;
      } else {
        assert out'[at].name == more[k].name;
      }
    }
  }

  lemma Unnamed(all: seq<Property>, out: seq<Property>, name: string)
    requires AllNamed(all, out) && forall i | 0 <= i < |out| :: out[i].name != name
    ensures forall k | 0 <= k < |all| :: all[k].name != name
  {}

  lemma ListsNew(all: seq<Property>, out: seq<Property>, p: Property)
    requires ListsOnce(all, out) && forall i | 0 <= i < |out| :: out[i].name != p.name
    ensures ListsOnce(all + [p], out + [p])
  {
    hide StandsFor, FirstsAscend;
    var out' := out + [p];
    Unnamed(all, out, p.name);
    hide AllNamed;
    Covers(all, out, p, out', |out|);
    FirstsStill(all, out, p, out');
    forall i | 0 <= i < |out'| ensures StandsFor(all + [p], out'[i]) {
      if i < |out| { StandsStill(all, p, out[i]); } else { StandsLast(all, p, p); }
    }
  }

  lemma ListsAgain(all: seq<Property>, out: seq<Property>, p: Property, at: nat)
    requires ListsOnce(all, out) && at < |out| && out[at].name == p.name
    ensures ListsOnce(all + [p], out[at := p.(required := out[at].required || p.required)])
  {
    var q := p.(required := out[at].required || p.required);
    var out' := out[at := q];
    assert StandsFor(all, out[at]);
    StandsLast(all, p, q);
    hide StandsFor, FirstsAscend, AllNamed;
    Covers(all, out, p, out', at);
    FirstsStill(all, out, p, out');
    forall i | 0 <= i < |out'| ensures StandsFor(all + [p], out'[i]) {
      if i != at {
        assert out[i].name != p.name;
        StandsStill(all, p, out[i]);
      }
    }
  }

  lemma OneMoreListed(all: seq<Property>, out: seq<Property>, p: Property)
    requires ListsOnce(all, out)
    ensures ListsOnce(all + [p], AddProp(out, p))
  {
    var at := AddPropIs(out, p);
    hide ListsOnce, AddProp;
    if at < |out| { ListsAgain(all, out, p, at); } else { ListsNew(all, out, p); }
  }

  lemma NoneListed()
    ensures ListsOnce([], [])
  {
    hide StandsFor;
  }

  lemma {:induction false} AddPropsLists(all: seq<Property>)
    ensures ListsOnce(all, AddProps([], all))
  {
    hide ListsOnce, AddProp;
    if all != [] {
      AddPropsLists(Front(all));
      OneMoreListed(Front(all), AddProps([], Front(all)), Last(all));
      assert all == Front(all) + [Last(all)];
    } else {
      NoneListed();
    }
  }

  /** The merged properties are those the members list. */
  lemma PropsAre(fs: seq<Node>)
    ensures ListsOnce(AllProps(fs), PropsOf(fs))
  {
    PropsOfAll(fs);
    AddPropsLists(AllProps(fs));
  }

  /** Every property listed fits. */
  ghost predicate AllFit(c: Context, ps: seq<Property>, fields: map<string, Json>, p: string, fuel: nat)
    requires fuel > 0
  {
    forall i | 0 <= i < |ps| :: PropFits(c, ps[i], fields, p, fuel)
  }

  lemma {:induction false} AddPropFits(c: Context, ps: seq<Property>, x: Property, fields: map<string, Json>, p: string, fuel: nat)
    requires fuel > 0 && AllFit(c, ps, fields, p, fuel) && PropFits(c, x, fields, p, fuel)
    ensures AllFit(c, AddProp(ps, x), fields, p, fuel)
  {
    hide Accepts;
    if ps == [] {
    } else if ps[0].name == x.name {
      assert PropFits(c, ps[0], fields, p, fuel);
      assert PropFits(c, x.(required := ps[0].required || x.required), fields, p, fuel);
    } else {
      AddPropFits(c, ps[1..], x, fields, p, fuel);
      hide PropFits;
      var rest := AddProp(ps[1..], x);
      assert AddProp(ps, x) == [ps[0]] + rest;
      forall i | 0 <= i < |[ps[0]] + rest| ensures PropFits(c, ([ps[0]] + rest)[i], fields, p, fuel) {
        if i > 0 { assert ([ps[0]] + rest)[i] == rest[i - 1]; }
      }
    }
  }

  lemma {:induction false} AddPropsFit(c: Context, ps: seq<Property>, more: seq<Property>, fields: map<string, Json>, p: string, fuel: nat)
    requires fuel > 0 && AllFit(c, ps, fields, p, fuel) && AllFit(c, more, fields, p, fuel)
    ensures AllFit(c, AddProps(ps, more), fields, p, fuel)
  {
    hide PropFits;
    if more != [] {
      assert AllFit(c, Front(more), fields, p, fuel);
      AddPropsFit(c, ps, Front(more), fields, p, fuel);
      AddPropFits(c, AddProps(ps, Front(more)), Last(more), fields, p, fuel);
    }
  }

  lemma {:induction false} AllPropsFit(c: Context, fs: seq<Node>, fields: map<string, Json>, p: string, fuel: nat)
    requires fuel > 0
    ensures AllFit(c, AllProps(fs), fields, p, fuel) <==> forall i | 0 <= i < |fs| :: AllFit(c, fs[i].props, fields, p, fuel)
  {
    hide PropFits;
    if fs != [] {
      AllPropsFit(c, Front(fs), fields, p, fuel);
      var a, b := AllProps(Front(fs)), Last(fs).props;
      assert AllFit(c, a + b, fields, p, fuel) <==> AllFit(c, a, fields, p, fuel) && AllFit(c, b, fields, p, fuel) by {
        AppendFits(c, a, b, fields, p, fuel);
      }
      hide AllFit;
      assert Last(fs) == fs[|fs| - 1];
      assert forall i | 0 <= i < |Front(fs)| :: Front(fs)[i] == fs[i];
    }
  }

  lemma AppendFits(c: Context, a: seq<Property>, b: seq<Property>, fields: map<string, Json>, p: string, fuel: nat)
    requires fuel > 0
    ensures AllFit(c, a + b, fields, p, fuel) <==> AllFit(c, a, fields, p, fuel) && AllFit(c, b, fields, p, fuel)
  {
    hide PropFits;
    if AllFit(c, a + b, fields, p, fuel) {
      assert forall i | 0 <= i < |a| :: (a + b)[i] == a[i];
      assert forall i | 0 <= i < |b| :: (a + b)[|a| + i] == b[i];
    }
  }

  ghost predicate DistinctNames(ps: seq<Property>) { forall i, j | 0 <= i < j < |ps| :: ps[i].name != ps[j].name }

  // ---- The loop over the members ----

  /** The position at which the merged list holds a name, or its length. */
  function IndexOf(ps: seq<Property>, name: string): (i: nat)
    ensures i <= |ps| && (i < |ps| ==> ps[i].name == name) && forall j | 0 <= j < i :: ps[j].name != name
  {
    if ps == [] || ps[0].name == name then 0 else 1 + IndexOf(ps[1..], name)
  }

  lemma {:induction false} AddPropAt(ps: seq<Property>, p: Property)
    ensures var i := IndexOf(ps, p.name);
            AddProp(ps, p) == if i < |ps| then ps[i := p.(required := ps[i].required || p.required)] else ps + [p]
  {
    if ps != [] && ps[0].name != p.name {
      AddPropAt(ps[1..], p);
      assert ps == [ps[0]] + ps[1..];
    }
  }

  /** The properties gathered so far: a table by name, and the names in order of arrival. */
  ghost predicate Gathers(props: map<string, Property>, order: seq<string>, ps: seq<Property>) {
    && |order| == |ps| && (forall i | 0 <= i < |ps| :: order[i] == ps[i].name && order[i] in props && props[order[i]] == ps[i])
    && (forall name | name in props :: name in order)
    && DistinctNames(ps)
  }

  lemma GatheredAt(props: map<string, Property>, order: seq<string>, ps: seq<Property>, name: string)
    requires Gathers(props, order, ps)
    ensures name in props <==> IndexOf(ps, name) < |ps|
    ensures name in props ==> props[name] == ps[IndexOf(ps, name)]
  {}

  lemma GatherAgain(props: map<string, Property>, order: seq<string>, ps: seq<Property>, k: nat, p: Property)
    requires Gathers(props, order, ps) && k < |ps| && ps[k].name == p.name
    ensures Gathers(props[p.name := p], order, ps[k := p])
  {}

  lemma GatherNew(props: map<string, Property>, order: seq<string>, ps: seq<Property>, p: Property)
    requires Gathers(props, order, ps) && p.name !in props
    ensures Gathers(props[p.name := p], order + [p.name], ps + [p])
  {}

  method GatherProp(props: map<string, Property>, order: seq<string>, p: Property, ghost ps: seq<Property>)
    returns (props': map<string, Property>, order': seq<string>)
    requires Gathers(props, order, ps)
    ensures Gathers(props', order', AddProp(ps, p))
  {
    AddPropAt(ps, p);
    GatheredAt(props, order, ps, p.name);
    hide Gathers, AddProp;
    if p.name in props {
      var existing := props[p.name];
      var q := if existing.required then p.(required := existing.required) else p;
      GatherAgain(props, order, ps, IndexOf(ps, p.name), q);
      props', order' := props[p.name := q], order;
    } else {
      GatherNew(props, order, ps, p);
      props', order' := props[p.name := p], order + [p.name];
    }
  }

  method GatherProps(props: map<string, Property>, order: seq<string>, more: seq<Property>, ghost ps: seq<Property>)
    returns (props': map<string, Property>, order': seq<string>)
    requires Gathers(props, order, ps)
    ensures Gathers(props', order', AddProps(ps, more))
  {
    hide Gathers, AddProp;
    props', order' := props, order;
    var i := 0;
    while i < |more|
      invariant 0 <= i <= |more| && Gathers(props', order', AddProps(ps, more[..i]))
    {
      assert Front(more[..i + 1]) == more[..i];
      props', order' := GatherProp(props', order', more[i], AddProps(ps, more[..i]));
      i := i + 1;
    }
    assert more[..i] == more;
  }

  method IntersectEnums(a: seq<EnumValue>, b: seq<EnumValue>) returns (out: seq<EnumValue>)
    ensures out == Intersect(a, b)
  {
    var inB := set x | x in b;
    out := [];
    var i := 0;
    while i < |a|
      invariant 0 <= i <= |a| && out == Intersect(a[..i], b)
    {
      assert Front(a[..i + 1]) == a[..i];
      if a[i] in inB { out := out + [a[i]]; }
      i := i + 1;
    }
    assert a[..i] == a;
  }

  lemma {:induction false} ConflictStays(fs: seq<Node>, n: nat)
    requires n <= |fs| && Conflict(fs[..n])
    ensures Conflict(fs)
  {
    if n < |fs| {
      ConflictStays(Front(fs), n) by { assert Front(fs)[..n] == fs[..n]; }
    } else {
      assert fs[..n] == fs;
    }
  }

  /** What the loop has gathered from the members done so far. */
  datatype Gathered = Gathered(
    typ: string, nullable: bool, enums: Option<seq<EnumValue>>, items: Option<Node>,
    props: map<string, Property>, order: seq<string>)

  ghost predicate GathersAll(g: Gathered, fs: seq<Node>) {
    && g.typ == TypeOf(fs) && g.nullable == AllNullable(fs) && g.enums == EnumOf(fs) && g.items == ItemsOf(fs)
    && Gathers(g.props, g.order, PropsOf(fs))
  }

  method GatherMember(g: Gathered, m: Node, ghost fs: seq<Node>) returns (ok: bool, g': Gathered)
    requires GathersAll(g, fs) && !Conflict(fs)
    ensures ok == !Conflict(fs + [m])
    ensures ok ==> GathersAll(g', fs + [m])
  {
    hide Gathers, AddProps;
    assert Front(fs + [m]) == fs && Last(fs + [m]) == m;
    AllNullableMore(fs, m);
    g' := g;
    ok := false;
    if m.composition.Some? { return; }
    if m.typ != "" && m.typ != "unknown" {
      if g'.typ != "" && g'.typ != m.typ { return; }
      g' := g'.(typ := m.typ);
    }
    if !m.nullable { g' := g'.(nullable := m.nullable); }
    if m.items.Some? && g'.items.None? { g' := g'.(items := m.items); }
    if m.enums.Some? {
      if g'.enums.None? {
        g' := g'.(enums := m.enums);
      } else {
        var e := IntersectEnums(g'.enums.value, m.enums.value);
        g' := g'.(enums := Some(e));
      }
    }
    var props, order := GatherProps(g'.props, g'.order, m.props, PropsOf(fs));
    g' := g'.(props := props, order := order);
    ok := true;
  }

  lemma AllNullableMore(fs: seq<Node>, m: Node)
    ensures AllNullable(fs + [m]) == (AllNullable(fs) && m.nullable)
  {
    if AllNullable(fs + [m]) {
      assert (fs + [m])[|fs|] == m && forall i | 0 <= i < |fs| :: (fs + [m])[i] == fs[i];
    }
  }

  lemma {:induction false} EachFront(ms: seq<Node>, t: Table, depth: nat, i: nat)
    requires i < |ms|
    ensures FlattenEach(ms[..i + 1], t, depth) == FlattenEach(ms[..i], t, depth) + [FlattenAllOf(ms[i], t, depth)]
    ensures FlattenEach(ms, t, depth)[..i] == FlattenEach(ms[..i], t, depth)
    decreases |ms| - i
  {
    assert Front(ms[..i + 1]) == ms[..i];
    EachPrefix(ms, t, depth, i);
  }

  lemma {:induction false} EachPrefix(ms: seq<Node>, t: Table, depth: nat, i: nat)
    requires i <= |ms|
    ensures FlattenEach(ms, t, depth)[..i] == FlattenEach(ms[..i], t, depth)
  {
    if i < |ms| {
      assert Front(ms)[..i] == ms[..i];
      EachPrefix(Front(ms), t, depth, i);
    } else {
      assert ms[..i] == ms;
    }
  }

  /** The merged node, with the properties in order of arrival. */
  method FlattenMembers(n: Node, t: Table, depth: nat) returns (r: Node)
    requires IsAllOf(n) && depth <= MAX_FLATTEN_DEPTH
    ensures var fs := FlattenEach(n.composition.value.members, t, depth + 1); r == if Conflict(fs) then n else Merged(fs)
    decreases MAX_FLATTEN_DEPTH + 1 - depth, 0
  {
    hide FlattenAllOf, Conflict, GathersAll;
    var ms := n.composition.value.members;
    ghost var fs := FlattenEach(ms, t, depth + 1);
    var g := Gathered("", true, None, None, map[], []);
    var i := 0;
    NothingGathered(g, FlattenEach(ms[..0], t, depth + 1));
    while i < |ms|
      invariant 0 <= i <= |ms|
      invariant var done := FlattenEach(ms[..i], t, depth + 1); !Conflict(done) && GathersAll(g, done)
    {
      EachFront(ms, t, depth + 1, i);
      EachPrefix(ms, t, depth + 1, i + 1);
      var m := FlattenInPlace(ms[i], t, depth + 1);
      var ok, g1 := GatherMember(g, m, FlattenEach(ms[..i], t, depth + 1));
      if !ok {
        ConflictStays(fs, i + 1);
        return n;
      }
      g := g1;
      i := i + 1;
    }
    assert ms[..i] == ms;
    var nullable := if |ms| == 0 then false else g.nullable;
    GatheredMerges(g, fs);
    r := Node(None, None, g.typ, nullable, g.enums, g.items, seq(|g.order|, k requires 0 <= k < |g.order| && g.order[k] in g.props => g.props[g.order[k]]));
  }

  lemma NothingGathered(g: Gathered, fs: seq<Node>)
    requires fs == [] && g == Gathered("", true, None, None, map[], [])
    ensures GathersAll(g, fs) && !Conflict(fs)
  {}

  lemma GatheredMerges(g: Gathered, fs: seq<Node>)
    requires GathersAll(g, fs)
    ensures forall k | 0 <= k < |g.order| :: g.order[k] in g.props
    ensures Merged(fs) == Node(None, None, g.typ, fs != [] && g.nullable, g.enums, g.items,
              seq(|g.order|, k requires 0 <= k < |g.order| && g.order[k] in g.props => g.props[g.order[k]]))
  {}

  method FlattenInPlace(n: Node, t: Table, depth: nat) returns (r: Node)
    ensures r == FlattenAllOf(n, t, depth)
    decreases MAX_FLATTEN_DEPTH + 1 - depth, 1
  {
    if depth > MAX_FLATTEN_DEPTH { return n; }
    var m, hops := n, 0;
    while m.ref.Some? && hops < MAX_FLATTEN_DEPTH
      invariant 0 <= hops <= MAX_FLATTEN_DEPTH
      invariant Follow(n, t, MAX_FLATTEN_DEPTH) == Follow(m, t, MAX_FLATTEN_DEPTH - hops)
      invariant Missing(n, t, MAX_FLATTEN_DEPTH) == Missing(m, t, MAX_FLATTEN_DEPTH - hops)
    {
      if m.ref.value !in t { return m; }
      m := t[m.ref.value];
      hops := hops + 1;
    }
    if m.composition.None? || m.composition.value.kind != "allOf" { return m; }
    r := FlattenMembers(m, t, depth);
  }
}
