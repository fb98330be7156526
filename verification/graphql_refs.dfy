/** Where the reference texts of a document lead when they are read back as JSON pointers. */
module GraphQLRefs {
  import opened GraphQL
  import opened GraphQLOpenApi
  import opened OrderedMap
  import opened Text

  // ---- Reading a reference ----

  const COMPONENTS: string := "#/components/schemas/"

  /** `gqlRefSchema`: the name is written as it is. */
  function RefText(name: string): string { COMPONENTS + name }

  function Unescaped(parts: seq<string>): seq<string> { seq(|parts|, i requires 0 <= i < |parts| => JpUnescape(parts[i])) }

  /** The keys `getByPointer` looks up, one below the other. */
  function PathOf(pointer: string): seq<string>
    requires |pointer| >= 2
  {
    Unescaped(Split(pointer[2..], '/'))
  }

  /** What is found in a document: a component, something inside one, or neither. */
  datatype Target = Component(name: string) | Inside(name: string, rest: seq<string>) | Elsewhere

  function TargetOf(d: Document, pointer: string): Target
    requires |pointer| >= 2
  {
    var path := PathOf(pointer);
    if |path| < 3 || path[0] != "components" || path[1] != "schemas" || path[2] !in KeysOf(d.components) then Elsewhere
    else if |path| == 3 then Component(path[2])
    else Inside(path[2], path[3..])
  }

  // ---- The references of a document ----

  function Refs(x: Shape): set<string> {
    match x
    case RefTo(name) => {name}
    case Plain(_, _) => {}
    case ArrayOf(items) => Refs(items)
    case ObjectOf(props, _) => set i, r | 0 <= i < |props| && r in Refs(props[i].1) :: r
    case EnumOf(_) => {}
    case OneOf(choices) => set i, r | 0 <= i < |choices| && r in Refs(choices[i]) :: r
  }

  function OptionRefs(x: Option<Shape>): set<string> { if x.Some? then Refs(x.value) else {} }

  function OperationRefs(o: Operation): set<string> {
    (set i, r | 0 <= i < |o.params| && r in Refs(o.params[i].shape) :: r) + OptionRefs(o.body) + OptionRefs(o.response)
  }

  function PathRefs(ps: seq<(string, Operation)>): set<string> { set i, r | 0 <= i < |ps| && r in OperationRefs(ps[i].1) :: r }

  function DocumentRefs(d: Document): set<string> {
    PathRefs(d.paths) + PathRefs(d.webhooks) + set i, r | 0 <= i < |d.components| && r in Refs(d.components[i].1) :: r
  }

  lemma {:induction false} RefsWithin(x: Shape, names: set<string>)
    ensures Within(x, names) <==> Refs(x) <= names
  {
    match x
    case ArrayOf(items) => RefsWithin(items, names);
    case ObjectOf(props, _) =>
      forall i | 0 <= i < |props| ensures Within(props[i].1, names) <==> Refs(props[i].1) <= names { RefsWithin(props[i].1, names); }
      if Refs(x) <= names {
        forall i | 0 <= i < |props| ensures Refs(props[i].1) <= names {
          forall r | r in Refs(props[i].1) ensures r in names { assert r in Refs(x); }
        }
      }
    case OneOf(choices) =>
      forall i | 0 <= i < |choices| ensures Within(choices[i], names) <==> Refs(choices[i]) <= names { RefsWithin(choices[i], names); }
      if Refs(x) <= names {
        forall i | 0 <= i < |choices| ensures Refs(choices[i]) <= names {
          forall r | r in Refs(choices[i]) ensures r in names { assert r in Refs(x); }
        }
      }
    case _ =>
  }

  lemma OperationRefsWithin(o: Operation, names: set<string>)
    requires OperationWithin(o, names)
    ensures OperationRefs(o) <= names
  {
    hide Within, Refs;
    forall i | 0 <= i < |o.params| ensures Refs(o.params[i].shape) <= names { RefsWithin(o.params[i].shape, names); }
    if o.body.Some? { RefsWithin(o.body.value, names); }
    if o.response.Some? { RefsWithin(o.response.value, names); }
  }

  lemma PathRefsWithin(ps: seq<(string, Operation)>, names: set<string>)
    requires AllWithin(ps, names)
    ensures PathRefs(ps) <= names
  {
    hide OperationWithin, OperationRefs;
    forall i | 0 <= i < |ps| ensures OperationRefs(ps[i].1) <= names { OperationRefsWithin(ps[i].1, names); }
  }

  /** What is referenced has a component. */
  lemma DocumentRefsWithin(d: Document)
    requires NoDangling(d)
    ensures DocumentRefs(d) <= KeysOf(d.components)
  {
    var names := KeysOf(d.components);
    hide Within, Refs, AllWithin, PathRefs, KeysOf;
    PathRefsWithin(d.paths, names);
    PathRefsWithin(d.webhooks, names);
    forall i | 0 <= i < |d.components| ensures Refs(d.components[i].1) <= names { RefsWithin(d.components[i].1, names); }
  }

  // ---- Which names survive being written into a pointer ----

  predicate HasPair(s: string, a: char, b: char) { exists i | 0 <= i < |s| - 1 :: s[i] == a && s[i + 1] == b }

  /** No slash, and no tilde before a 0 or a 1. */
  predicate IsSegment(name: string) { '/' !in name && !HasPair(name, '~', '0') && !HasPair(name, '~', '1') }

  lemma {:induction false} ReplaceTwoSame(s: string, a: char, b: char, c: char)
    ensures |ReplaceTwo(s, a, b, c)| <= |s|
    ensures HasPair(s, a, b) ==> |ReplaceTwo(s, a, b, c)| < |s|
    ensures !HasPair(s, a, b) ==> ReplaceTwo(s, a, b, c) == s
  {
    if |s| >= 2 {
      if s[0] == a && s[1] == b {
        ReplaceTwoSame(s[2..], a, b, c);
        assert HasPair(s, a, b);
      } else {
        ReplaceTwoSame(s[1..], a, b, c);
        if i :| 0 <= i < |s| - 1 && s[i] == a && s[i + 1] == b {
          assert i > 0 && s[1..][i - 1] == a && s[1..][i] == b;
        }
        if i :| 0 <= i < |s[1..]| - 1 && s[1..][i] == a && s[1..][i + 1] == b { assert s[i + 1] == a && s[i + 2] == b; }
        assert s == [s[0]] + s[1..];
      }
    }
  }

  /** Unescaping leaves a name alone exactly if it holds no escape. */
  lemma UnescapeSame(name: string)
    ensures JpUnescape(name) == name <==> !HasPair(name, '~', '0') && !HasPair(name, '~', '1')
  {
    hide HasPair;
    var once := ReplaceTwo(name, '~', '1', '/');
    ReplaceTwoSame(name, '~', '1', '/');
    ReplaceTwoSame(once, '~', '0', '~');
  }

  lemma RefTail(name: string)
    ensures RefText(name)[2..] == "components" + ['/'] + ("schemas" + ['/'] + name)
  {
    assert COMPONENTS == "#/" + ("components" + ['/'] + ("schemas" + ['/']));
    assert RefText(name) == "#/" + ("components" + ['/'] + ("schemas" + ['/'] + name));
  }

  lemma RefParts(name: string)
    ensures Split(RefText(name)[2..], '/') == ["components", "schemas"] + Split(name, '/')
  {
    hide Split, RefText;
    RefTail(name);
    SplitBoth("components", "schemas" + ['/'] + name, '/');
    SplitBoth("schemas", name, '/');
    NoSlash();
    SplitFree("components", '/');
    SplitFree("schemas", '/');
  }

  lemma NoSlash()
    ensures '/' !in "components" && '/' !in "schemas"
  {}

  lemma RefPath(name: string)
    ensures PathOf(RefText(name)) == ["components", "schemas"] + Unescaped(Split(name, '/'))
  {
    hide Split, JpUnescape, HasPair;
    RefParts(name);
    NoPair("components");
    NoPair("schemas");
    UnescapeSame("components");
    UnescapeSame("schemas");
    var parts, tail := Split(RefText(name)[2..], '/'), Split(name, '/');
    assert parts[0] == "components" && parts[1] == "schemas" && forall i | 0 <= i < |tail| :: parts[2 + i] == tail[i];
    assert Unescaped(parts) == ["components", "schemas"] + Unescaped(tail);
  }

  lemma NoPair(s: string)
    requires '~' !in s
    ensures !HasPair(s, '~', '0') && !HasPair(s, '~', '1')
  {}

  /** The text written for a name leads to the component of that name exactly if the name holds
      no slash and no escape; with a slash it leads to no component at all. */
  lemma RefLeadsHome(d: Document, name: string)
    requires name in KeysOf(d.components)
    ensures TargetOf(d, RefText(name)) == Component(name) <==> IsSegment(name)
    ensures '/' in name ==> !TargetOf(d, RefText(name)).Component?
  {
    hide KeysOf, JpUnescape, Split, HasPair;
    RefPath(name);
    SplitFree(name, '/');
    UnescapeSame(name);
    var tail := Unescaped(Split(name, '/'));
    var path := PathOf(RefText(name));
    assert |path| == 2 + |tail| && path[2] == tail[0];
  }

  // ---- The documents ----

  /** Every reference leads to the component of the type it names. */
  ghost predicate Resolves(d: Document) {
    forall name | name in DocumentRefs(d) :: TargetOf(d, RefText(name)) == Component(name)
  }

  lemma ResolvesIff(d: Document)
    requires NoDangling(d)
    ensures Resolves(d) <==> forall name | name in DocumentRefs(d) :: IsSegment(name)
  {
    DocumentRefsWithin(d);
    hide DocumentRefs, IsSegment, KeysOf, TargetOf, RefText;
    forall name | name in DocumentRefs(d) ensures TargetOf(d, RefText(name)) == Component(name) <==> IsSegment(name) {
      RefLeadsHome(d, name);
    }
  }

  /** The names of a schema text are lexed, so every document made from one resolves. */
  lemma AcceptedDocumentResolves(src: string)
    requires ParseSDL(src).Some?
    ensures Resolves(ToOpenApi(ParseSDL(src).value))
  {
    var s := ParseSDL(src).value;
    ParsedInStep(src);
    ParsedNames(src);
    hide ParseSDL, NoDangling, ToOpenApi, DocumentRefs, KeysOf, IsSegment, NameChars, InStep;
    DocumentSound(s);
    ResolvesIff(ToOpenApi(s));
    DocumentRefsWithin(ToOpenApi(s));
    forall name | name in DocumentRefs(ToOpenApi(s)) ensures IsSegment(name) { LexedIsSegment(name); }
  }

  lemma LexedIsSegment(name: string)
    requires NameChars(name)
    ensures IsSegment(name)
  {
    forall c | c in name ensures c != '/' && c != '~' {
      var i :| 0 <= i < |name| && name[i] == c;
      assert IsNameCont(name[i]);
    }
  }

  /** Introspection takes any text for a name. The document resolves exactly if no type that is
      referenced has a slash or an escape in its name. */
  lemma IntrospectedDocumentResolves(ts: seq<Type>, query: string, mutation: string, subscription: string)
    requires Introspect(ts).Some?
    ensures var d := ToOpenApi(Introspect(ts).value.(query := query, mutation := mutation, subscription := subscription));
            && (Resolves(d) <==> forall name | name in DocumentRefs(d) :: IsSegment(name))
            && DocumentRefs(d) <= Names(ts)
  {
    IntrospectedDocumentSound(ts, query, mutation, subscription);
    IntrospectedInStep(ts);
    IntrospectedNames(ts);
    hide Introspect, NoDangling, ToOpenApi, DocumentRefs, IsSegment, Resolves, KeysOf;
    var s := Introspect(ts).value.(query := query, mutation := mutation, subscription := subscription);
    ResolvesIff(ToOpenApi(s));
    DocumentRefsWithin(ToOpenApi(s));
    DocumentSound(s);
  }

  lemma {:induction false} IntrospectedNames(ts: seq<Type>)
    requires Introspect(ts).Some?
    ensures Introspect(ts).value.byName.Keys == Names(ts)
  {
    if ts != [] {
      IntrospectedNames(Front(ts));
      NamesLast(ts);
      hide Names;
    }
  }

  /** And every name that has one does break a document: that of a query of the type. Names that
      start with two underscores are skipped by introspection. */
  lemma BadNameBreaks(name: string) returns (ts: seq<Type>)
    requires !IsSegment(name) && !At(name, 0, "__")
    ensures Introspect(ts).Some? && !Resolves(ToOpenApi(Introspect(ts).value))
    ensures forall t | t in ts :: t.name == "Query" || t.name == name
  {
    var f := Field("f", [], Named(name, false));
    var named, root := Type(Object, name, [], [], []), Type(Object, "Query", [f], [], []);
    ts := [named, root];
    NotOrdinary(name);
    assert Front(ts) == [named] && Front([named]) == [];
    assert Introspect([]) == Some(NO_SCHEMA) && NO_SCHEMA.types == [];
    assert [] + [named] == [named];
    assert Introspect([named]) == Register(NO_SCHEMA, named, false);
    assert Introspect([named]) == Some(Schema("", "", "", [named], map[name := 0]));
    var s := Introspect(ts).value;
    assert s == Schema("", "", "", ts, map[name := 0, "Query" := 1]);
    QueryRefers(s, f, name);
    IntrospectedDocumentSound(ts, "", "", "");
    assert s.(query := "", mutation := "", subscription := "") == s;
    ResolvesIff(ToOpenApi(s));
  }

  lemma NotOrdinary(name: string)
    requires !IsSegment(name)
    ensures name != "Query" && name !in BUILTIN_SCALARS
  {
    if name in BUILTIN_SCALARS || name == "Query" {
      assert '~' !in name && '/' !in name;
      NoPair(name);
      assert false;
    }
  }

  lemma QueryRefers(s: Schema, f: Field, name: string)
    requires RootFields(s, s.query, "Query") == [f] && RootFields(s, s.mutation, "Mutation") == []
    requires f.args == [] && f.typ == Named(name, false) && name !in BUILTIN_SCALARS && name in s.byName
    ensures name in DocumentRefs(ToOpenApi(s))
  {
    var d, o := ToOpenApi(s), QueryOperation(s, f);
    assert TypeRefShape(s, f.typ) == RefTo(name);
    assert name in OptionRefs(o.response);
    assert name in OperationRefs(o);
    assert Front([f]) == [];
    assert QueryPaths(s, [f]) == SetKey(QueryPaths(s, []), "/graphql/query/" + f.name, o);
    var ps := QueryPaths(s, []);
    assert ps == [("/graphql", CATCH_ALL)];
    var k := "/graphql/query/" + f.name;
    assert |k| > |"/graphql"|;
    assert SetKey(ps, k, o) == [ps[0]] + SetKey([], k, o) == [ps[0], (k, o)];
    assert d.paths == [ps[0], (k, o)];
    assert name in OperationRefs(d.paths[1].1);
    assert name in PathRefs(d.paths);
  }
}
